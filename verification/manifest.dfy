/** The `Manifest` value of manifest.go: how `New` builds it from the
    configuration, the decoded manifest file and the directory listing, and
    what `GetJSURLs`, `GetCSSURLs` and `Mount` answer from it.

    File and directory I/O is not modelled: `New` receives the outcome of
    opening and decoding `asset-manifest.json` and the outcome of reading the
    build directory, and the order in which Go would walk the decoded map. */
module Manifest {
  import opened Wrappers
  import opened Paths
  import opened Assets
  import opened Prefixing
  import opened Mounting

  /** The recognised options; the build directory itself is only a location
      for I/O and is not modelled. */
  datatype Config = Config(
    publicURL: string,
    mountExcludeForPublic: string,
    isDev: bool,
    devBundleURL: string)

  datatype Manifest = Manifest(
    cfg: Config,
    mdata: MData,
    mountFiles: seq<Entry>,
    prefix: string)

  /** What opening and decoding `asset-manifest.json` gave. */
  datatype ManifestRead = OpenFailed | DecodeFailed | Decoded(files: map<string, string>)

  /** What reading the build directory gave. */
  datatype Listing = ReadDirFailed | Listed(entries: seq<Entry>)

  /** The errors `New` reports. */
  datatype Error = ManifestOpenError | ManifestDecodeError | DirReadError

  /** `filepath.Join("/", PublicURL)`. */
  function PublicPrefix(publicURL: string): (prefix: string)
    ensures Canonical(prefix)
  {
    JoinRoot(publicURL);
    Join("/", publicURL)
  }

  /** `New`: in development mode the lists are the bundle URL alone and no
      style sheet, and the manifest file is not read; otherwise the file must
      open and decode. The build directory is read in both modes. */
  function New(cfg: Config, read: ManifestRead, order: seq<string>, listing: Listing): (r: Result<Manifest, Error>)
    requires !cfg.isDev && read.Decoded? ==> IsKeyOrder(read.files, order)
    ensures r == Failure(ManifestOpenError) <==> !cfg.isDev && read == OpenFailed
    ensures r == Failure(ManifestDecodeError) <==> !cfg.isDev && read == DecodeFailed
    ensures r == Failure(DirReadError) <==> (cfg.isDev || read.Decoded?) && listing == ReadDirFailed
    ensures r.Success? ==> r.value.cfg == cfg && Canonical(r.value.prefix)
  {
    if !cfg.isDev && read == OpenFailed then Failure(ManifestOpenError)
    else if !cfg.isDev && read == DecodeFailed then Failure(ManifestDecodeError)
    else
      var mdata := if cfg.isDev then MData([cfg.devBundleURL], []) else ProcessAssetsURLs(read.files, order);
      match listing
      case ReadDirFailed => Failure(DirReadError)
      case Listed(entries) =>
        Success(Manifest(cfg, mdata, MountFiles(cfg.mountExcludeForPublic, entries), PublicPrefix(cfg.publicURL)))
  }

  /** `GetJSURLs`: the stored script URLs, prefixed unless in development mode. */
  function GetJSURLs(m: Manifest): (urls: seq<string>)
    ensures |urls| == |m.mdata.js|
    ensures m.cfg.isDev ==> urls == m.mdata.js
    ensures !m.cfg.isDev ==> forall i :: 0 <= i < |urls| ==> urls[i] == WithPrefix(m.prefix, m.mdata.js[i])
  {
    if m.cfg.isDev then m.mdata.js else PrefixURLs(m.prefix, m.mdata.js)
  }

  /** `GetCSSURLs`: the stored style sheet URLs, prefixed unless in development mode. */
  function GetCSSURLs(m: Manifest): (urls: seq<string>)
    ensures |urls| == |m.mdata.css|
    ensures m.cfg.isDev ==> urls == m.mdata.css
    ensures !m.cfg.isDev ==> forall i :: 0 <= i < |urls| ==> urls[i] == WithPrefix(m.prefix, m.mdata.css[i])
  {
    if m.cfg.isDev then m.mdata.css else PrefixURLs(m.prefix, m.mdata.css)
  }

  /** `Mount`: the routes registered for the kept entries. */
  function Mount(m: Manifest): (routes: seq<Route>)
    ensures |routes| == |m.mountFiles|
    ensures forall i :: 0 <= i < |routes| ==> routes[i].pattern == RoutePattern(m.prefix, m.mountFiles[i])
    ensures forall i :: 0 <= i < |routes| ==> routes[i].strip == if m.prefix == "/" then None else Some(m.prefix)
  {
    Routes(m.prefix, m.mountFiles)
  }

  // ---------------------------------------------------------------------------
  // Properties

  /** The prefix always starts at the root, and an empty public URL (or "/")
      gives the root itself. */
  lemma PrefixShape(publicURL: string)
    ensures Rooted(PublicPrefix(publicURL))
    ensures publicURL == "" || publicURL == "/" ==> PublicPrefix(publicURL) == "/"
  {
    if publicURL == "/" {
      RenderCanonical([]);
      assert "/" + JoinSegs([]) == "/";
      JoinRoot("/");
    }
  }

  /** In development mode the manifest file plays no part. */
  lemma DevIgnoresManifest(cfg: Config, a: ManifestRead, b: ManifestRead, order: seq<string>, listing: Listing)
    requires cfg.isDev
    ensures New(cfg, a, order, listing) == New(cfg, b, order, listing)
  {
  }

  /** In development mode the script list is the bundle URL alone, the style
      list is empty, and neither is prefixed. */
  lemma DevModeURLs(cfg: Config, read: ManifestRead, order: seq<string>, entries: seq<Entry>)
    requires cfg.isDev
    ensures New(cfg, read, order, Listed(entries)).Success?
    ensures GetJSURLs(New(cfg, read, order, Listed(entries)).value) == [cfg.devBundleURL]
    ensures GetCSSURLs(New(cfg, read, order, Listed(entries)).value) == []
  {
  }

  /** In production mode every returned URL is the stored one with the prefix
      applied, and comes out clean and rooted. */
  lemma ProductionURLs(m: Manifest, i: nat)
    requires !m.cfg.isDev && Canonical(m.prefix)
    ensures i < |m.mdata.js| ==> GetJSURLs(m)[i] == WithPrefix(m.prefix, m.mdata.js[i]) && Canonical(GetJSURLs(m)[i])
    ensures i < |m.mdata.css| ==> GetCSSURLs(m)[i] == WithPrefix(m.prefix, m.mdata.css[i]) && Canonical(GetCSSURLs(m)[i])
  {
  }

  /** End to end in production mode, for every walk order of the manifest:
      the prefixed runtime script comes first, the prefixed `main.js` last
      and the prefixed `main.css` last. */
  lemma ProductionOrdering(cfg: Config, files: map<string, string>, order: seq<string>, entries: seq<Entry>)
    requires !cfg.isDev
    requires IsKeyOrder(files, order)
    ensures New(cfg, Decoded(files), order, Listed(entries)).Success?
    ensures var m := New(cfg, Decoded(files), order, Listed(entries)).value;
      var js := GetJSURLs(m);
      RuntimeJSKey in files ==> |js| > 0 && js[0] == WithPrefix(m.prefix, files[RuntimeJSKey])
    ensures var m := New(cfg, Decoded(files), order, Listed(entries)).value;
      var js := GetJSURLs(m);
      MainJSKey in files ==> |js| > 0 && js[|js| - 1] == WithPrefix(m.prefix, files[MainJSKey])
    ensures var m := New(cfg, Decoded(files), order, Listed(entries)).value;
      var css := GetCSSURLs(m);
      MainCSSKey in files ==> |css| > 0 && css[|css| - 1] == WithPrefix(m.prefix, files[MainCSSKey])
  {
    RuntimeFirst(files, order);
    MainLast(files, order);
  }

  /** The routes `Mount` registers: exactly the entries of a valid listing
      that the exclusion pattern does not match are reachable, and every route
      strips the prefix unless it is "/". */
  lemma MountedRoutes(cfg: Config, read: ManifestRead, order: seq<string>, entries: seq<Entry>, e: Entry)
    requires !cfg.isDev && read.Decoded? ==> IsKeyOrder(read.files, order)
    requires New(cfg, read, order, Listed(entries)).Success?
    requires ValidListing(entries)
    requires e in entries
    ensures var m := New(cfg, read, order, Listed(entries)).value;
      (exists r :: r in Mount(m) && r.pattern == RoutePattern(m.prefix, e)) <==> !Excluded(cfg.mountExcludeForPublic, e.name)
    ensures var m := New(cfg, read, order, Listed(entries)).value;
      forall r :: r in Mount(m) ==> (r.strip == if PublicPrefix(cfg.publicURL) == "/" then None else Some(PublicPrefix(cfg.publicURL)))
  {
    var m := New(cfg, read, order, Listed(entries)).value;
    RoutableIffKept(m.prefix, cfg.mountExcludeForPublic, entries, e);
  }

  // ---------------------------------------------------------------------------
  // The grouped scripts of a typical build

  /** A manifest with a runtime script, one script chunk and `main.js`, all
      served from "/static/js/". */
  function TypicalFiles(runtime: string, chunkKey: string, chunk: string, main: string): map<string, string> {
    map[
      RuntimeJSKey := "/static/js/" + runtime,
      MainJSKey := "/static/js/" + main,
      chunkKey := "/static/js/" + chunk]
  }

  /** Under the public URL "/cms", in production mode, for every walk order:
      the scripts come out as runtime, chunk, `main.js`, each under "/cms",
      and there is no style sheet. (For example runtime "rt.abc.js", chunk
      key "static/js/2.def.chunk.js" and main "main.xyz.js".) */
  lemma GroupedUnderCms(cfg: Config, runtime: string, chunkKey: string, chunk: string, main: string,
                        order: seq<string>, entries: seq<Entry>)
    requires cfg.publicURL == "/cms" && !cfg.isDev
    requires Proper(runtime) && Proper(chunk) && Proper(main)
    requires IsJSChunk(chunkKey)
    requires IsKeyOrder(TypicalFiles(runtime, chunkKey, chunk, main), order)
    ensures New(cfg, Decoded(TypicalFiles(runtime, chunkKey, chunk, main)), order, Listed(entries)).Success?
    ensures var m := New(cfg, Decoded(TypicalFiles(runtime, chunkKey, chunk, main)), order, Listed(entries)).value;
      GetJSURLs(m) == ["/cms/static/js/" + runtime, "/cms/static/js/" + chunk, "/cms/static/js/" + main]
    ensures var m := New(cfg, Decoded(TypicalFiles(runtime, chunkKey, chunk, main)), order, Listed(entries)).value;
      GetCSSURLs(m) == []
  {
    var files := TypicalFiles(runtime, chunkKey, chunk, main);
    var mdata := MData(["/static/js/" + runtime, "/static/js/" + chunk, "/static/js/" + main], []);
    TypicalLists(runtime, chunkKey, chunk, main, order);
    CmsPrefix();
    var m := Manifest(cfg, mdata, MountFiles(cfg.mountExcludeForPublic, entries), "/cms");
    assert New(cfg, Decoded(files), order, Listed(entries)) == Success(m);
    TypicalPrefixed(runtime, chunk, main);
    assert GetJSURLs(m) == PrefixURLs("/cms", mdata.js);
  }

  /** The three scripts of the typical manifest, put under "/cms". */
  lemma TypicalPrefixed(runtime: string, chunk: string, main: string)
    requires Proper(runtime) && Proper(chunk) && Proper(main)
    ensures PrefixURLs("/cms", ["/static/js/" + runtime, "/static/js/" + chunk, "/static/js/" + main])
         == ["/cms/static/js/" + runtime, "/cms/static/js/" + chunk, "/cms/static/js/" + main]
  {
    var js := PrefixURLs("/cms", ["/static/js/" + runtime, "/static/js/" + chunk, "/static/js/" + main]);
    assert js[0] == "/cms/static/js/" + runtime by {
      ScriptUnderCms(runtime);
    }
    assert js[1] == "/cms/static/js/" + chunk by {
      ScriptUnderCms(chunk);
    }
    assert js[2] == "/cms/static/js/" + main by {
      ScriptUnderCms(main);
    }
  }

  /** What `processAssetsURLs` makes of the typical manifest, in every walk
      order. */
  lemma TypicalLists(runtime: string, chunkKey: string, chunk: string, main: string, order: seq<string>)
    requires IsJSChunk(chunkKey)
    requires IsKeyOrder(TypicalFiles(runtime, chunkKey, chunk, main), order)
    ensures ProcessAssetsURLs(TypicalFiles(runtime, chunkKey, chunk, main), order)
         == MData(["/static/js/" + runtime, "/static/js/" + chunk, "/static/js/" + main], [])
  {
    TypicalPicked(runtime, chunkKey, chunk, main, order);
    TypicalSlots(runtime, chunkKey, chunk, main);
    var r := ProcessAssetsURLs(TypicalFiles(runtime, chunkKey, chunk, main), order);
    assert r.js == ["/static/js/" + runtime] + ["/static/js/" + chunk] + ["/static/js/" + main];
    assert r.css == [] + [];
  }

  /** In every walk order, the walk of the typical manifest picks the chunk
      alone as script and nothing as style sheet. */
  lemma TypicalPicked(runtime: string, chunkKey: string, chunk: string, main: string, order: seq<string>)
    requires IsJSChunk(chunkKey)
    requires IsKeyOrder(TypicalFiles(runtime, chunkKey, chunk, main), order)
    ensures Picked(TypicalFiles(runtime, chunkKey, chunk, main), order, JSChunk) == ["/static/js/" + chunk]
    ensures Picked(TypicalFiles(runtime, chunkKey, chunk, main), order, CSSChunk) == []
  {
    var files := TypicalFiles(runtime, chunkKey, chunk, main);
    TypicalChunkKeys(runtime, chunkKey, chunk, main);
    assert forall k :: k in files && KindOf(k) == JSChunk ==> k in ChunkKeys(files, JSChunk);
    SingleChunk(files, order, JSChunk, chunkKey);
    PickedCount(files, order, CSSChunk);
    WalkedChunkKeys(files, order, CSSChunk);
  }

  /** The designated keys of the typical manifest: the runtime script and
      `main.js` are there, `main.css` is not. */
  lemma TypicalSlots(runtime: string, chunkKey: string, chunk: string, main: string)
    requires IsJSChunk(chunkKey)
    ensures Slot(TypicalFiles(runtime, chunkKey, chunk, main), RuntimeJSKey) == ["/static/js/" + runtime]
    ensures Slot(TypicalFiles(runtime, chunkKey, chunk, main), MainJSKey) == ["/static/js/" + main]
    ensures Slot(TypicalFiles(runtime, chunkKey, chunk, main), MainCSSKey) == []
  {
    TypicalChunkKeys(runtime, chunkKey, chunk, main);
  }

  /** The typical manifest has its three keys, the chunk key is its only
      script chunk, and it has no style chunk. */
  lemma TypicalChunkKeys(runtime: string, chunkKey: string, chunk: string, main: string)
    requires IsJSChunk(chunkKey)
    ensures RuntimeJSKey != chunkKey && MainJSKey != chunkKey && MainCSSKey != chunkKey
    ensures ChunkKeys(TypicalFiles(runtime, chunkKey, chunk, main), JSChunk) == {chunkKey}
    ensures ChunkKeys(TypicalFiles(runtime, chunkKey, chunk, main), CSSChunk) == {}
  {
    var files := TypicalFiles(runtime, chunkKey, chunk, main);
    ClassesDisjoint(chunkKey);
    ChunkPatternsDisjoint(chunkKey);
    assert files.Keys == {RuntimeJSKey, MainJSKey, chunkKey};
  }

  /** The chunk name of the example above has the shape the script chunk
      pattern requires. */
  lemma ExampleChunkName()
    ensures IsJSChunk("static/js/2.def.chunk.js")
  {
    ChunkNameAccepted(JSChunkDir, "2", "def", JSChunkSuffix);
    assert JSChunkDir + "2" + "." + "def" + JSChunkSuffix == "static/js/2.def.chunk.js";
  }

  /** The public URL "/cms" is its own prefix. */
  lemma CmsPrefix()
    ensures PublicPrefix("/cms") == "/cms"
  {
    RenderCanonical(["cms"]);
    assert "/" + JoinSegs(["cms"]) == "/cms";
    JoinRoot("/cms");
  }

  /** A script under "/static/js/" is put under "/cms". */
  lemma ScriptUnderCms(name: string)
    requires Proper(name)
    ensures WithPrefix("/cms", "/static/js/" + name) == "/cms/static/js/" + name
  {
    assert Proper("js");
    StaticUnderCms("js", name);
    assert "/static/" + "js" + "/" == "/static/js/";
    assert "/cms/static/" + "js" + "/" == "/cms/static/js/";
  }
}
