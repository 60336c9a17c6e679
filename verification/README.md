# createreactappmanifest in Dafny

A model of the Go package `createreactappmanifest` (file `manifest.go`). The
package integrates a Create React App build with a Go web server. It reads the
build's `asset-manifest.json` into ordered lists of script and style-sheet URLs,
puts a public URL prefix in front of them, and computes the routes under which
the top-level entries of the build directory are served.

The model is split into modules that follow the program:

- `Wrappers` (`wrappers.dfy`) holds `Option` and `Result`.
- `Paths` (`paths.dfy`) models `filepath.Clean` and `filepath.Join` with '/' as
  the separator.
  - A path is split at every '/'.
  - Empty and "." segments are dropped.
  - ".." removes the segment before it. At the root it is dropped; in a
    relative path with nothing to remove it is kept.
  - The result is rebuilt, rooted if the input was.
- `Glob` (`glob.dfy`) is the part of `filepath.Match` that the exclusion pattern
  uses: `*`, `?`, `\` escapes and literal characters.
- `Assets` (`assets.dfy`) models `processAssetsURLs`, `appendJS`/`appendCSS` and
  the two chunk-name regular expressions.
  - The regular expressions are written as character predicates.
  - The order in which Go ranges over the manifest map is a parameter `order`:
    any sequence that lists every key of the map exactly once.
  - Every property is proved for every such order.
- `Prefixing` (`prefixing.dfy`) models `withPrefix` and `prefixURLs`.
- `Mounting` (`mounting.dfy`) models the exclusion filter inside `New` and the
  list of routes `Mount` registers.
  - A route is its pattern plus the prefix that `http.StripPrefix` removes
    (`None` when the prefix is "/").
- `Manifest` (`manifest.dfy`) models `Config`, `Manifest`, `New`, `GetJSURLs`,
  `GetCSSURLs` and `Mount`, and gives a worked example.
  - `New` receives the outcome of opening and decoding the manifest file as a
    value, and likewise the outcome of reading the build directory.
  - It reports the same three failures, in the same order, as the Go code.

Behaviour of manifest.go worth noting:

- In development mode `New` sets the script list to `[DevBundleURL]` and the
  style list to `[]` without opening the manifest file. It still reads the
  build directory, and a failure there is still reported.
- `withPrefix` decides whether a path is already prefixed by comparing text, not
  path segments. With prefix "/cms", the path "/cmsx/a.js" counts as already
  prefixed and is returned unchanged (`Prefixing.PrefixTestIsTextual`).
- `withPrefix` is idempotent only for paths without ".." segments:
  - "../x" under "/cms" gives "/x" (`Prefixing.DotDotEscapesPrefix`);
  - a second application gives "/cms/x" (`Prefixing.DotDotBreaksIdempotence`).
- `Mount` uses the prefix `New` stored, `Join("/", PublicURL)`; the routes of
  one manifest always share it.

## Model

| member | source | states |
|---|---|---|
| Paths.Clean | manifest.go:112 | Cleaning never gives the empty path. The result is rooted exactly when the input is. A rooted result consists of proper segments only: no empty segment, no ".", no "..". |
| Paths.Join | manifest.go:112 | Joining onto a rooted path gives a rooted path. The result is empty exactly when both parts are empty. |
| Paths.CleanIdempotent | manifest.go:199-202 | Cleaning a cleaned path changes nothing, for rooted and relative paths alike. |
| Paths.JoinIsClean | manifest.go:199-202 | Every non-empty path `Join` returns is already clean. The empty result, of two empty parts, is not: cleaning it gives ".". |
| Paths.JoinRoot | manifest.go:112 | `Join("/", p)` is always clean and rooted. A clean rooted `p` comes back unchanged. |
| Paths.JoinRootedCanonical | manifest.go:202 | Joining anything under a rooted prefix gives a clean rooted path. |
| Paths.JoinExtends | manifest.go:202 | Under a clean rooted prefix, a path without ".." joins to the prefix itself or to a path that starts with the prefix and '/'. |
| Paths.RenderCanonical | manifest.go:112 | "/" followed by proper segments is a clean rooted path, and cleaning returns exactly those segments. |
| Paths.JoinSegments | manifest.go:202 | Joining a non-empty path onto a rooted one resolves the second path's segments on top of the first path's segments. |
| Glob.Match | manifest.go:108 | The match reports an error exactly for a malformed pattern. Otherwise it answers whether the name matches. |
| Glob.LiteralMatch | manifest.go:108 | A pattern without special characters matches exactly the name it spells. |
| Glob.StarSuffix | manifest.go:108 | `*` followed by a literal matches exactly the names without '/' that end in the literal. |
| Glob.EmptyPattern | manifest.go:108 | The empty pattern matches only the empty name. |
| Assets.IsJSChunkPattern | manifest.go:24 | A key is a script chunk exactly when it is "static/js/", a non-empty run of digits, a dot, a non-empty run of `[a-z0-9]`, and ".chunk.js", with nothing before or after. |
| Assets.IsCSSChunkPattern | manifest.go:25 | A key is a style chunk exactly when it is "static/css/", a non-empty run of digits, a dot, a non-empty run of `[a-z0-9]`, and ".chunk.css", with nothing before or after. |
| Assets.ChunkNameIsPattern | manifest.go:24-25 | For any directory and suffix, the left-to-right scanner accepts exactly the keys the anchored pattern describes. |
| Assets.KindOf | manifest.go:143-149 | A key is classed as a script chunk exactly when it matches the script chunk pattern. It is a style chunk exactly when it matches the style chunk pattern. |
| Assets.ChunkPatternsDisjoint | manifest.go:24-25 | No key matches both chunk patterns. |
| Assets.NumberDotHashIsPattern | manifest.go:24-25 | The scanner accepts a middle part exactly when it is a non-empty run of digits, a dot, and a non-empty run of `[a-z0-9]`. |
| Assets.ChunkNameAccepted | manifest.go:24-25 | Every directory + digits + "." + hash + suffix name is accepted by the chunk pattern. |
| Assets.AppendJS | manifest.go:122-124 | Adds exactly one script URL at the end. The earlier scripts and the style sheets are unchanged. |
| Assets.AppendCSS | manifest.go:126-128 | Adds exactly one style-sheet URL at the end. The earlier style sheets and the scripts are unchanged. |
| Assets.Scan | manifest.go:142-150 | The loop appends, in walk order, the values of the script chunk keys to the script list and those of the style chunk keys to the style list. |
| Assets.Visit | manifest.go:143-149 | One iteration adds the key's value to the script list exactly when the key is a script chunk, and to the style list exactly when it is a style chunk; the other list is left as it was. |
| Assets.ScanStep | manifest.go:142-150 | What one iteration adds, followed by what the rest of the walk picks, is what the whole walk picks from that key on. |
| Assets.ProcessAssetsURLs | manifest.go:130-163 | Scripts: the runtime value if present, then the script chunk values in walk order, then `main.js` if present. Style sheets: the style chunk values, then `main.css` if present. |
| Assets.RuntimeFirst | manifest.go:137-140 | For every walk order, a present runtime entry is the first script. |
| Assets.MainLast | manifest.go:152-160 | For every walk order, a present `main.js` is the last script and a present `main.css` is the last style sheet. |
| Assets.ClassesDisjoint | manifest.go:20-25 | The three designated keys are not chunk names, and no key feeds both lists. |
| Assets.OtherAssetsIgnored | manifest.go:142-150 | `main.js.map` and `static/media/logo.svg` feed neither list. |
| Assets.ListMembers | manifest.go:130-163 | A URL is in the script list exactly when a script key (runtime, script chunk or `main.js`) maps to it, and likewise for style sheets. |
| Assets.JSMembers | manifest.go:130-163 | A URL is in the script list exactly when a script key maps to it. |
| Assets.CSSMembers | manifest.go:130-163 | A URL is in the style list exactly when a style key (style chunk or `main.css`) maps to it. |
| Assets.ListLengths | manifest.go:130-163 | Each list has one entry per feeding key, and the two sets of feeding keys are disjoint. |
| Assets.JSLength | manifest.go:130-163 | The script list is as long as the set of keys that feed it. |
| Assets.CSSLength | manifest.go:130-163 | The style list is as long as the set of keys that feed it. |
| Assets.PickedMembers | manifest.go:142-150 | A value is picked exactly when some visited key of that chunk kind maps to it. |
| Assets.PickedCount | manifest.go:142-150 | A walk without repeated keys picks one value per chunk key of the kind. |
| Assets.PickedConcat | manifest.go:142-150 | Walking two key sequences one after the other picks the two results one after the other. |
| Assets.PickedPermutation | manifest.go:142-150 | Reordering the walk only permutes the picked values. |
| Assets.KeyOrdersPermute | manifest.go:142 | Any two walk orders of one map are permutations of each other. |
| Assets.OrderIndependent | manifest.go:142-150 | For any two walk orders, both lists hold the same values with the same multiplicities. Only the order of the chunks can differ. |
| Assets.SingleChunk | manifest.go:142-150 | With a single chunk key of a kind, every walk picks that key's value alone. |
| Prefixing.PrefixURLs | manifest.go:165-171 | Same length and order; element `i` is the prefix applied to URL `i`. |
| Prefixing.WithPrefix | manifest.go:197-203 | With a rooted or empty prefix, the result is always a clean rooted path. |
| Prefixing.NoDoubling | manifest.go:197-203 | A clean rooted path that already begins with the prefix comes back unchanged, so the prefix is never put in front twice. |
| Prefixing.WithPrefixStartsWithPrefix | manifest.go:197-203 | With a clean rooted prefix and a path without "..", the result begins with the prefix. |
| Prefixing.WithPrefixIdempotent | manifest.go:197-203 | With a clean rooted prefix and a path without "..", applying the prefix twice equals applying it once. |
| Prefixing.DotDotEscapesPrefix | manifest.go:197-203 | "../x" under "/cms" leaves the prefix: the result is "/x". |
| Prefixing.DotDotBreaksIdempotence | manifest.go:197-203 | Applying "/cms" again to that result gives "/cms/x", so idempotence needs the no-".." condition. |
| Prefixing.JoinProper | manifest.go:202 | A relative path of proper segments joined under a clean rooted prefix gives the concatenated segments. |
| Prefixing.AlreadyPrefixed | manifest.go:198-201 | A clean rooted path that already has the prefix's segments in front comes back unchanged. |
| Prefixing.MainCssUnderCms | manifest.go:197-203 | With prefix "/cms", "/cms/static/css/main.css" comes back unchanged, not as "/cms/cms/...", and "static/css/main.css" becomes "/cms/static/css/main.css". |
| Prefixing.RootedPathPrefixed | manifest.go:197-203 | A clean rooted path that does not begin with the prefix is put under it, segment by segment. |
| Prefixing.RelativePathPrefixed | manifest.go:197-203 | A relative path of proper segments whose rooted form does not begin with the prefix is put under the prefix, segment by segment. |
| Prefixing.ParentJoin | manifest.go:202 | A ".." joined under a clean rooted prefix removes the prefix's last segment (nothing above the root) before the name is added. |
| Prefixing.StaticUnderCms | manifest.go:197-203 | A file "static/DIR/NAME" ends up at "/cms/static/DIR/NAME" whether the manifest gives it relative, rooted, or already under "/cms". |
| Prefixing.XUnderCms | manifest.go:197-203 | The rooted path "/x" under "/cms" becomes "/cms/x". |
| Prefixing.FixtureScriptPrefixed | manifest_test.go:59 | The fixture script "/static/js/main.33fb4ad2.js" under "/cms" becomes "/cms/static/js/main.33fb4ad2.js". |
| Prefixing.PrefixTestIsTextual | manifest.go:199-201 | "/cmsx/a.js" counts as already under "/cms" and is returned unchanged, although it is not below "/cms/". |
| Prefixing.PrefixURLsIdempotent | manifest.go:165-171 | With a clean rooted prefix and URLs without "..", every prefixed URL is clean and rooted, and prefixing the list again changes nothing. |
| Mounting.MountFiles | manifest.go:107-111 | No more entries are kept than were listed, and keeping as many means keeping the listing itself. |
| Mounting.Excluded | manifest.go:108 | An entry is excluded exactly when the pattern is well formed and the name matches it; the match error is dropped, so a malformed pattern excludes nothing. |
| Mounting.MountFilesMembers | manifest.go:107-111 | The kept entries are exactly the listed entries whose name the pattern does not match. |
| Mounting.MountFilesConcat | manifest.go:107-111 | Filtering keeps the listing order: filtering a concatenation concatenates the filtered parts. |
| Mounting.MalformedExcludesNothing | manifest.go:108 | The match error is ignored, so a malformed pattern keeps every entry. |
| Mounting.EmptyPatternExcludesNothing | manifest.go:108 | With no exclusion pattern configured, every entry with a non-empty name is kept. |
| Mounting.StarSuffixExcludes | manifest.go:108 | `*` + suffix excludes exactly the names that end in the suffix. |
| Mounting.HtmlVerdicts | manifest.go:108 | `*.html` excludes `demo.html` and keeps `favicon.ico` and `static`. |
| Mounting.DemoExcluded | manifest.go:108 | `*.html` excludes `demo.html`. |
| Mounting.FaviconKept | manifest.go:108 | `*.html` does not exclude `favicon.ico`. |
| Mounting.StaticKept | manifest.go:108 | `*.html` does not exclude `static`. |
| Mounting.HtmlExcludedExample | manifest_test.go:78-103 | The listing `demo.html`, `favicon.ico`, `static/` filtered with `*.html` keeps `favicon.ico` and `static/`, in that order. |
| Mounting.RoutePattern | manifest.go:215-220 | Under a rooted prefix the pattern is rooted. A directory's pattern ends in '/', so it covers everything below it; a file's pattern is a clean rooted path. |
| Mounting.Routes | manifest.go:208-221 | One route per kept entry, in order. The pattern is the joined path, plus '/' for a directory. The prefix is stripped exactly when it is not "/". |
| Mounting.PatternShape | manifest.go:215-220 | Under a clean rooted prefix, a pattern is the prefix, '/', the entry name, and a final '/' exactly for directories. |
| Mounting.JoinName | manifest.go:215 | Joining a clean rooted prefix with a plain entry name gives the prefix, a '/' unless the prefix is the root, and the name. |
| Mounting.ServedPath | manifest.go:209-212 | After the prefix is stripped, the file server sees "/" + name (+ "/" for a directory): the entry's own path in the build directory. |
| Mounting.PatternInjective | manifest.go:214-221 | Entries with proper names get the same pattern only if they are the same entry. |
| Mounting.RoutableIffKept | manifest.go:107-111 | In a listing with distinct proper names, an entry's pattern is among the routes exactly when the pattern does not exclude the entry. |
| Manifest.PublicPrefix | manifest.go:112 | The prefix is always a clean rooted path. |
| Manifest.New | manifest.go:75-120 | Open failure, decode failure and directory failure are each reported exactly in their own case; in development mode the manifest file is never consulted. A constructed value keeps the configuration and has a clean rooted prefix. |
| Manifest.GetJSURLs | manifest.go:176-183 | Development mode returns the stored scripts as they are. Otherwise each is the stored one with the prefix applied, in order. |
| Manifest.GetCSSURLs | manifest.go:188-195 | Development mode returns the stored style sheets as they are. Otherwise each is the stored one with the prefix applied, in order. |
| Manifest.Mount | manifest.go:208-223 | One route per kept entry with its joined pattern. Every route strips the prefix unless the prefix is "/". |
| Manifest.PrefixShape | manifest.go:112 | The prefix is rooted, and an empty (or "/") public URL gives "/". |
| Manifest.DevIgnoresManifest | manifest.go:79-83 | In development mode the outcome of `New` does not depend on the manifest file at all. |
| Manifest.DevModeURLs | manifest.go:79-83 | In development mode construction succeeds once the directory is listed. The scripts are exactly `[DevBundleURL]` and there are no style sheets. |
| Manifest.ProductionURLs | manifest.go:176-195 | In production mode each returned URL is the stored one with the prefix applied, and is clean and rooted. |
| Manifest.ProductionOrdering | manifest.go:137-160 | End to end, for every walk order: the prefixed runtime script comes first, the prefixed `main.js` last, and the prefixed `main.css` last among the style sheets. |
| Manifest.MountedRoutes | manifest.go:208-221 | After `New`, an entry is reachable through `Mount` exactly when the exclusion pattern does not match it. Every route strips the prefix unless the prefix is "/". |
| Manifest.GroupedUnderCms | manifest.go:75-183 | A production build with a runtime script, one script chunk and `main.js` under the public URL "/cms" is constructed, and for every walk order yields the scripts in the order runtime, chunk, `main.js`, each under "/cms/static/js/", and no style sheet. |
| Manifest.TypicalLists | manifest.go:130-163 | That manifest gives, in every walk order, the scripts runtime, chunk, `main.js` and no style sheet. |
| Manifest.TypicalPicked | manifest.go:142-150 | In every walk order of that manifest, the loop picks the chunk alone as script and nothing as style sheet. |
| Manifest.TypicalSlots | manifest.go:137-160 | In that manifest the runtime script and `main.js` are present and `main.css` is absent. |
| Manifest.TypicalChunkKeys | manifest.go:20-25 | Of that manifest's keys, the chunk key is the only script chunk and none is a style chunk. |
| Manifest.ExampleChunkName | manifest.go:24 | "static/js/2.def.chunk.js" is a script chunk name. |
| Manifest.TypicalPrefixed | manifest.go:165-171 | Prefixing the three "/static/js/" scripts with "/cms" puts each under "/cms", in order. |
| Manifest.ScriptUnderCms | manifest.go:197-203 | A script "/static/js/NAME" under "/cms" becomes "/cms/static/js/NAME". |
| Manifest.CmsPrefix | manifest.go:112 | The public URL "/cms" gives the prefix "/cms". |

## Left out

- Reading and decoding `asset-manifest.json` (`os.Open`, `json.Decoder`) and listing the build directory (`ioutil.ReadDir`). `New` takes their outcomes as inputs (`ManifestRead`, `Listing`).
- The `kerrs` error wrapping and its messages. Errors are the three constructors of `Manifest.Error`.
- `Config.ManifestDir` and the constant `manifestFileName`. They only locate files for the I/O above.
- The HTTP machinery: `http.FileServer`, `http.StripPrefix`, `ServeMux.Handle` and request serving. `Mount` returns the patterns and the strip prefix it would register.
- `GetURL`. It is called by manifest_test.go, but manifest.go does not define it.
- example_test.go, which only renders HTML tags and wires a mux.
- Glob.Match: character classes (`[...]`) are not modelled. A pattern that opens one is treated as malformed, and so excludes nothing.
- Operating-system path separators. Only '/' is modelled.
- The Go map itself. It is a Dafny `map`, and its iteration order is the `order` parameter, constrained by `Assets.IsKeyOrder`.
- Manifest.New: the Go function returns a reference to a `Manifest` that shares `cfg` with the caller. The model returns values, so aliasing is not modelled.
- Manifest.GetJSURLs and Manifest.GetCSSURLs: in development mode the Go methods return the stored slices themselves (manifest.go:177-180, 189-192), so a caller writing into the result changes the manifest. The model returns values, so this aliasing is not modelled either.
