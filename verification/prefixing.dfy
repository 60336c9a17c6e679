/** Putting the public URL prefix in front of asset paths (manifest.go,
    `withPrefix` and `prefixURLs`).

    The test that decides whether a path already carries the prefix is a test
    on text, not on path segments: with prefix "/cms" the path "/cmsx/a.js"
    counts as already prefixed (`PrefixTestIsTextual`). */
module Prefixing {
  import opened Paths

  /** `withPrefix`: when the rooted form of `p` already begins with `prefix`,
      the prefix is replaced by "/", so the result is just the rooted form;
      otherwise `prefix` and `p` are joined. With a rooted (or empty) prefix
      the result is always a clean rooted path. */
  function WithPrefix(prefix: string, p: string): (r: string)
    ensures prefix == "" || Rooted(prefix) ==> Canonical(r)
  {
    var effective := if StartsWith(Join("/", p), prefix) then "/" else prefix;
    assert Rooted(effective) ==> Canonical(Join(effective, p)) by {
      if Rooted(effective) {
        JoinRootedCanonical(effective, p);
      }
    }
    Join(effective, p)
  }

  /** `prefixURLs`: the prefix applied to every URL, in order. */
  function PrefixURLs(prefix: string, urls: seq<string>): (r: seq<string>)
    ensures |r| == |urls|
    ensures forall i :: 0 <= i < |urls| ==> r[i] == WithPrefix(prefix, urls[i])
  {
    if |urls| == 0 then []
    else [WithPrefix(prefix, urls[0])] + PrefixURLs(prefix, urls[1..])
  }

  /** No doubled prefix: a clean rooted path that already begins with the
      prefix comes back unchanged. */
  lemma NoDoubling(prefix: string, q: string)
    requires Canonical(q) && StartsWith(q, prefix)
    ensures WithPrefix(prefix, q) == q
  {
    JoinRoot(q);
  }

  /** With a clean rooted prefix and a path without "..", the result begins
      with the prefix. */
  lemma WithPrefixStartsWithPrefix(prefix: string, p: string)
    requires Canonical(prefix)
    requires NoDotDot(p)
    ensures StartsWith(WithPrefix(prefix, p), prefix)
  {
    if !StartsWith(Join("/", p), prefix) {
      JoinExtends(prefix, p);
      var r := Join(prefix, p);
      if r != prefix {
        var lead := if prefix == "/" then prefix else prefix + "/";
        assert r[..|prefix|] == r[..|lead|][..|prefix|];
      }
    }
  }

  /** Applying the prefix twice is applying it once, for a clean rooted prefix
      and a path without "..". */
  lemma WithPrefixIdempotent(prefix: string, p: string)
    requires Canonical(prefix)
    requires NoDotDot(p)
    ensures WithPrefix(prefix, WithPrefix(prefix, p)) == WithPrefix(prefix, p)
  {
    WithPrefixStartsWithPrefix(prefix, p);
    NoDoubling(prefix, WithPrefix(prefix, p));
  }

  // ---------------------------------------------------------------------------
  // The shapes of the result

  /** A relative path of proper segments joined under a clean rooted prefix. */
  lemma JoinProper(pre: seq<string>, tail: seq<string>)
    requires AllProper(pre) && AllProper(tail) && |tail| > 0
    ensures Join("/" + JoinSegs(pre), JoinSegs(tail)) == "/" + JoinSegs(pre + tail)
  {
    RenderCanonical(pre);
    SplitProper(tail);
    JoinSegments("/" + JoinSegs(pre), JoinSegs(tail));
    ResolveProper(true, pre, tail);
  }

  /** A clean rooted path that already starts with the prefix's segments is
      returned unchanged. */
  lemma AlreadyPrefixed(pre: seq<string>, rest: seq<string>)
    requires AllProper(pre + rest)
    ensures WithPrefix("/" + JoinSegs(pre), "/" + JoinSegs(pre + rest)) == "/" + JoinSegs(pre + rest)
  {
    var prefix := "/" + JoinSegs(pre);
    var p := "/" + JoinSegs(pre + rest);
    RenderCanonical(pre + rest);
    JoinRoot(p);
    if |pre| > 0 && |rest| > 0 {
      JoinSegsConcat(pre, rest);
      assert p[..|prefix|] == prefix;
    } else if |rest| == 0 {
      assert pre + rest == pre;
    } else {
      assert p[..1] == "/";
    }
  }

  /** A relative manifest path whose rooted form does not begin with the
      prefix is put under it, segment by segment. */
  lemma RelativePathPrefixed(pre: seq<string>, tail: seq<string>)
    requires AllProper(pre) && AllProper(tail) && |tail| > 0
    requires !StartsWith("/" + JoinSegs(tail), "/" + JoinSegs(pre))
    ensures WithPrefix("/" + JoinSegs(pre), JoinSegs(tail)) == "/" + JoinSegs(pre + tail)
  {
    JoinProper([], tail);
    assert "/" + JoinSegs([]) == "/";
    assert [] + tail == tail;
    JoinProper(pre, tail);
  }

  /** A clean rooted manifest path that does not begin with the prefix is put
      under it, segment by segment. */
  lemma RootedPathPrefixed(pre: seq<string>, tail: seq<string>)
    requires AllProper(pre) && AllProper(tail) && |tail| > 0
    requires !StartsWith("/" + JoinSegs(tail), "/" + JoinSegs(pre))
    ensures WithPrefix("/" + JoinSegs(pre), "/" + JoinSegs(tail)) == "/" + JoinSegs(pre + tail)
  {
    var prefix := "/" + JoinSegs(pre);
    var p := "/" + JoinSegs(tail);
    RenderCanonical(tail);
    JoinRoot(p);
    RenderCanonical(pre);
    assert Split(p) == [""] + tail by {
      SplitConcat("", JoinSegs(tail));
      SplitProper(tail);
      assert "" + "/" + JoinSegs(tail) == p;
    }
    JoinSegments(prefix, p);
    assert Resolve(true, pre, [""] + tail) == Resolve(true, pre, tail);
    ResolveProper(true, pre, tail);
  }

  /** ".." and a name joined under a clean rooted prefix: the ".." removes the
      prefix's last segment (there is nothing above the root), then the name
      is added. */
  lemma ParentJoin(pre: seq<string>, name: string)
    requires AllProper(pre) && Proper(name)
    ensures Join("/" + JoinSegs(pre), "../" + name)
         == "/" + JoinSegs((if |pre| == 0 then [] else pre[..|pre| - 1]) + [name])
  {
    RenderCanonical(pre);
    SplitParent(name);
    JoinSegments("/" + JoinSegs(pre), "../" + name);
    var up := if |pre| == 0 then [] else pre[..|pre| - 1];
    assert Resolve(true, pre, ["..", name]) == up + [name] by {
      StepUp(pre);
      assert ["..", name][1..] == [name];
      ResolveProper(true, up, [name]);
    }
  }

  lemma SplitParent(name: string)
    requires Proper(name)
    ensures Split("../" + name) == ["..", name]
  {
    SplitConcat("..", name);
    SplitPlain("..");
    SplitPlain(name);
    assert ".." + "/" + name == "../" + name;
  }

  lemma StepUp(pre: seq<string>)
    requires AllProper(pre)
    ensures Step(true, pre, "..") == if |pre| == 0 then [] else pre[..|pre| - 1]
  {
    if |pre| > 0 {
      assert Proper(pre[|pre| - 1]);
    }
  }

  lemma JoinThree(a: string, b: string, c: string)
    ensures JoinSegs([a, b, c]) == a + "/" + b + "/" + c
  {
    assert [a, b, c][1..] == [b, c];
    assert [b, c][1..] == [c];
    assert JoinSegs([b, c]) == b + "/" + c;
    assert JoinSegs([a, b, c]) == a + "/" + (b + "/" + c);
  }

  // ---------------------------------------------------------------------------
  // Under the public URL "/cms"

  /** The segments of "/" and of "/cms". */
  lemma RootAndCms()
    ensures "/" + JoinSegs([]) == "/" && Segments("/") == []
    ensures "/" + JoinSegs(["cms"]) == "/cms" && Segments("/cms") == ["cms"]
  {
    RenderCanonical([]);
    assert "/" + JoinSegs([]) == "/";
    RenderCanonical(["cms"]);
    assert "/" + JoinSegs(["cms"]) == "/cms";
  }

  /** A file under "static/DIR/" ends up under "/cms" whether the manifest
      gives it relative, rooted, or already carrying "/cms" (the comment in
      `withPrefix` names the last case). */
  lemma StaticUnderCms(dir: string, name: string)
    requires Proper(dir) && Proper(name)
    ensures WithPrefix("/cms", "static/" + dir + "/" + name) == "/cms/static/" + dir + "/" + name
    ensures WithPrefix("/cms", "/static/" + dir + "/" + name) == "/cms/static/" + dir + "/" + name
    ensures WithPrefix("/cms", "/cms/static/" + dir + "/" + name) == "/cms/static/" + dir + "/" + name
  {
    var tail := ["static", dir, name];
    assert AllProper(["cms"]) && AllProper(tail) && AllProper(["cms"] + tail) by {
      CmsStaticProper(dir, name);
    }
    assert "/" + JoinSegs(["cms"]) == "/cms" by {
      RootAndCms();
    }
    assert !StartsWith("/" + JoinSegs(tail), "/cms") by {
      assert ("/" + JoinSegs(tail))[1] == 's';
    }
    assert WithPrefix("/cms", JoinSegs(tail)) == "/" + JoinSegs(["cms"] + tail) by {
      RelativePathPrefixed(["cms"], tail);
    }
    assert WithPrefix("/cms", "/" + JoinSegs(tail)) == "/" + JoinSegs(["cms"] + tail) by {
      RootedPathPrefixed(["cms"], tail);
    }
    assert WithPrefix("/cms", "/" + JoinSegs(["cms"] + tail)) == "/" + JoinSegs(["cms"] + tail) by {
      AlreadyPrefixed(["cms"], tail);
    }
    StaticText(dir, name);
  }

  lemma CmsStaticProper(dir: string, name: string)
    requires Proper(dir) && Proper(name)
    ensures AllProper(["cms"]) && AllProper(["static", dir, name])
    ensures AllProper(["cms"] + ["static", dir, name])
  {
    assert Proper("cms") && Proper("static");
    assert ["cms"] + ["static", dir, name] == ["cms", "static", dir, name];
  }

  /** The three spellings of a file under "static/DIR/", as segments. */
  lemma StaticText(dir: string, name: string)
    ensures JoinSegs(["static", dir, name]) == "static/" + dir + "/" + name
    ensures "/" + JoinSegs(["static", dir, name]) == "/static/" + dir + "/" + name
    ensures "/" + JoinSegs(["cms"] + ["static", dir, name]) == "/cms/static/" + dir + "/" + name
  {
    var tail := ["static", dir, name];
    var t := "static" + "/" + dir + "/" + name;
    JoinThree("static", dir, name);
    JoinSegsConcat(["cms"], tail);
    assert JoinSegs(["cms"]) == "cms";
    assert "static/" + dir + "/" + name == t;
    assert "/static/" + dir + "/" + name == "/" + t;
    assert "/cms/static/" + dir + "/" + name == "/" + ("cms" + "/" + t);
  }

  /** The example of the comment in `withPrefix`: a manifest path that already
      carries "/cms" is not turned into "/cms/cms/...", and one without it is
      put under it. */
  lemma MainCssUnderCms()
    ensures WithPrefix("/cms", "/cms/static/css/main.css") == "/cms/static/css/main.css"
    ensures WithPrefix("/cms", "static/css/main.css") == "/cms/static/css/main.css"
  {
    StaticUnderCms("css", "main.css");
    MainCssText();
  }

  lemma MainCssText()
    ensures "static/" + "css" + "/" + "main.css" == "static/css/main.css"
    ensures "/cms/static/" + "css" + "/" + "main.css" == "/cms/static/css/main.css"
  {
  }

  /** The script of the test fixture under the public URL "/cms". */
  lemma FixtureScriptPrefixed()
    ensures WithPrefix("/cms", "/static/js/main.33fb4ad2.js") == "/cms/static/js/main.33fb4ad2.js"
  {
    StaticUnderCms("js", "main.33fb4ad2.js");
    FixtureScriptText();
  }

  lemma FixtureScriptText()
    ensures "/static/" + "js" + "/" + "main.33fb4ad2.js" == "/static/js/main.33fb4ad2.js"
    ensures "/cms/static/" + "js" + "/" + "main.33fb4ad2.js" == "/cms/static/js/main.33fb4ad2.js"
  {
  }

  /** Without the ".." restriction, idempotence fails: "../x" under "/cms"
      becomes "/x" ... */
  lemma DotDotEscapesPrefix()
    ensures WithPrefix("/cms", "../x") == "/x"
  {
    RootAndCms();
    ParentJoin([], "x");
    ParentJoin(["cms"], "x");
    assert [] + ["x"] == ["x"];
    assert "/" + JoinSegs(["x"]) == "/x";
    assert "../" + "x" == "../x";
    assert !StartsWith("/x", "/cms");
  }

  /** ... which a second application then puts under "/cms". */
  lemma DotDotBreaksIdempotence()
    ensures WithPrefix("/cms", WithPrefix("/cms", "../x")) == "/cms/x"
  {
    DotDotEscapesPrefix();
    XUnderCms();
  }

  lemma XUnderCms()
    ensures WithPrefix("/cms", "/x") == "/cms/x"
  {
    assert AllProper(["cms"]) && AllProper(["x"]) by {
      assert Proper("cms") && Proper("x");
    }
    assert "/" + JoinSegs(["cms"]) == "/cms" by {
      RootAndCms();
    }
    assert "/" + JoinSegs(["x"]) == "/x";
    assert !StartsWith("/x", "/cms");
    assert WithPrefix("/cms", "/x") == "/" + JoinSegs(["cms"] + ["x"]) by {
      RootedPathPrefixed(["cms"], ["x"]);
    }
    assert ["cms"] + ["x"] == ["cms", "x"];
    assert "/" + JoinSegs(["cms", "x"]) == "/cms/x";
  }


  /** The prefix test compares text, not path segments: "/cmsx/a.js" counts as
      already under "/cms" and is returned without the prefix. */
  lemma PrefixTestIsTextual()
    ensures WithPrefix("/cms", "/cmsx/a.js") == "/cmsx/a.js"
    ensures !StartsWith(WithPrefix("/cms", "/cmsx/a.js"), "/cms/")
  {
    assert Join("/", "/cmsx/a.js") == "/cmsx/a.js" by {
      var segs := ["cmsx", "a.js"];
      RenderCanonical(segs);
      assert "/" + JoinSegs(segs) == "/cmsx/a.js";
      JoinRoot("/cmsx/a.js");
    }
    assert StartsWith("/cmsx/a.js", "/cms");
    assert "/cmsx/a.js"[..5] != "/cms/" by {
      assert "/cmsx/a.js"[..5][4] == 'x';
    }
  }

  /** Prefixing a list keeps it clean and rooted element by element, and a
      second application changes nothing. */
  lemma PrefixURLsIdempotent(prefix: string, urls: seq<string>)
    requires Canonical(prefix)
    requires forall i :: 0 <= i < |urls| ==> NoDotDot(urls[i])
    ensures forall i :: 0 <= i < |urls| ==> Canonical(PrefixURLs(prefix, urls)[i])
    ensures PrefixURLs(prefix, PrefixURLs(prefix, urls)) == PrefixURLs(prefix, urls)
  {
    var once := PrefixURLs(prefix, urls);
    forall i | 0 <= i < |urls|
      ensures Canonical(once[i])
      ensures WithPrefix(prefix, once[i]) == once[i]
    {
      WithPrefixIdempotent(prefix, urls[i]);
    }
  }
}
