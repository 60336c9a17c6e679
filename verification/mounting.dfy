/** Which top-level entries of the build directory are exposed, and the routes
    `Mount` registers for them (manifest.go, the filter loop in `New` and
    `Mount`).

    Registration on an `http.ServeMux` is modelled by the list of routes it
    would receive: each route's pattern, and the prefix the shared file server
    strips from request paths before looking the file up. */
module Mounting {
  import opened Wrappers
  import opened Paths
  import Glob

  /** Directories and plain files are mounted differently. */
  datatype EntryKind = File | Dir

  /** One entry of the build directory listing. */
  datatype Entry = Entry(name: string, kind: EntryKind)

  /** A route: its pattern, and the prefix `http.StripPrefix` removes before
      the file server sees the path (`None` when nothing is stripped). */
  datatype Route = Route(pattern: string, strip: Option<string>)

  /** `matched, _ := filepath.Match(pattern, name)`: the error is dropped, so
      a malformed pattern counts as "not matched". */
  function Excluded(pattern: string, name: string): (r: bool)
    ensures r <==> Glob.WellFormed(pattern) && Glob.Matches(pattern, name)
  {
    Glob.Match(pattern, name) == Success(true)
  }

  /** The entries kept for mounting, in listing order. */
  function MountFiles(pattern: string, entries: seq<Entry>): (r: seq<Entry>)
    ensures |r| <= |entries|
    ensures |r| == |entries| ==> r == entries
  {
    if |entries| == 0 then []
    else
      var rest := MountFiles(pattern, entries[1..]);
      if Excluded(pattern, entries[0].name) then rest
      else
        assert entries == [entries[0]] + entries[1..];
        [entries[0]] + rest
  }

  /** The kept entries are exactly the listed ones the pattern does not
      exclude. */
  lemma {:induction false} MountFilesMembers(pattern: string, entries: seq<Entry>)
    ensures forall e :: e in MountFiles(pattern, entries) <==> e in entries && !Excluded(pattern, e.name)
    decreases |entries|
  {
    if |entries| > 0 {
      MountFilesMembers(pattern, entries[1..]);
      assert forall e :: e in entries <==> e == entries[0] || e in entries[1..] by {
        assert entries == [entries[0]] + entries[1..];
      }
    }
  }

  /** The pattern a kept entry is registered under: `Join(prefix, name)`, with
      a trailing '/' for a directory so that everything below it matches. */
  function RoutePattern(prefix: string, e: Entry): (r: string)
    ensures Rooted(prefix) ==> Rooted(r)
    ensures e.kind == Dir ==> |r| > 0 && r[|r| - 1] == '/'
    ensures e.kind == File && Rooted(prefix) ==> Canonical(r)
  {
    var pt := Join(prefix, e.name);
    assert Rooted(prefix) ==> Canonical(pt) by {
      if Rooted(prefix) {
        JoinRootedCanonical(prefix, e.name);
      }
    }
    if e.kind == Dir then pt + "/" else pt
  }

  /** `Mount`: one route per kept entry, in order, all sharing one handler
      that strips the prefix unless the prefix is "/". */
  function Routes(prefix: string, files: seq<Entry>): (r: seq<Route>)
    ensures |r| == |files|
    ensures forall i :: 0 <= i < |r| ==> (r[i].strip.Some? <==> prefix != "/")
    ensures forall i :: 0 <= i < |r| ==> r[i].strip.Some? ==> r[i].strip.value == prefix
    ensures forall i :: 0 <= i < |r| ==> r[i].pattern == RoutePattern(prefix, files[i])
  {
    if |files| == 0 then []
    else
      var strip := if prefix != "/" then Some(prefix) else None;
      [Route(RoutePattern(prefix, files[0]), strip)] + Routes(prefix, files[1..])
  }

  // ---------------------------------------------------------------------------
  // The exclusion filter

  /** Filtering a listing piecewise is filtering it whole: the kept entries
      keep their relative order. */
  lemma {:induction false} MountFilesConcat(pattern: string, a: seq<Entry>, b: seq<Entry>)
    ensures MountFiles(pattern, a + b) == MountFiles(pattern, a) + MountFiles(pattern, b)
    decreases |a|
  {
    if |a| == 0 {
      assert a + b == b;
    } else {
      var head := if Excluded(pattern, a[0].name) then [] else [a[0]];
      assert (a + b)[0] == a[0] && (a + b)[1..] == a[1..] + b;
      MountFilesConcat(pattern, a[1..], b);
      calc {
        MountFiles(pattern, a + b);
        head + MountFiles(pattern, a[1..] + b);
        head + (MountFiles(pattern, a[1..]) + MountFiles(pattern, b));
        (head + MountFiles(pattern, a[1..])) + MountFiles(pattern, b);
        MountFiles(pattern, a) + MountFiles(pattern, b);
      }
    }
  }

  /** A malformed pattern excludes nothing. */
  lemma {:induction false} MalformedExcludesNothing(pattern: string, entries: seq<Entry>)
    requires !Glob.WellFormed(pattern)
    ensures MountFiles(pattern, entries) == entries
    decreases |entries|
  {
    if |entries| > 0 {
      MalformedExcludesNothing(pattern, entries[1..]);
      assert entries == [entries[0]] + entries[1..];
    }
  }

  /** The empty pattern (no exclusion configured) excludes nothing, since
      every entry has a non-empty name. */
  lemma {:induction false} EmptyPatternExcludesNothing(entries: seq<Entry>)
    requires forall i :: 0 <= i < |entries| ==> entries[i].name != ""
    ensures MountFiles("", entries) == entries
    decreases |entries|
  {
    if |entries| > 0 {
      Glob.EmptyPattern(entries[0].name);
      EmptyPatternExcludesNothing(entries[1..]);
      assert entries == [entries[0]] + entries[1..];
    }
  }

  /** `*` followed by a literal suffix excludes exactly the names ending in
      that suffix; with `*.html`, `demo.html` goes and the rest stay. */
  lemma StarSuffixExcludes(suffix: string, name: string)
    requires Glob.Literal(suffix) && '/' !in suffix
    requires '/' !in name
    ensures Excluded("*" + suffix, name) <==> EndsWith(name, suffix)
  {
    Glob.StarSuffix(suffix, name);
    assert Glob.WellFormed("*" + suffix) by {
      LiteralWellFormed(suffix);
      assert ("*" + suffix)[1..] == suffix;
    }
  }

  lemma {:induction false} LiteralWellFormed(p: string)
    requires Glob.Literal(p)
    ensures Glob.WellFormed(p)
    decreases |p|
  {
    if |p| > 0 {
      assert Glob.Literal(p[1..]) by {
        forall i | 0 <= i < |p[1..]| ensures !Glob.Special(p[1..][i]) {
          assert p[1..][i] == p[i + 1];
        }
      }
      assert !Glob.Special(p[0]);
      LiteralWellFormed(p[1..]);
    }
  }

  /** The listing of the test fixture with `*.html` excluded. */
  lemma HtmlExcludedExample()
    ensures MountFiles("*.html", [Entry("demo.html", File), Entry("favicon.ico", File), Entry("static", Dir)])
         == [Entry("favicon.ico", File), Entry("static", Dir)]
  {
    var entries := [Entry("demo.html", File), Entry("favicon.ico", File), Entry("static", Dir)];
    var kept := [Entry("favicon.ico", File), Entry("static", Dir)];
    HtmlVerdicts();
    assert entries[1..] == kept;
    assert kept[1..] == [Entry("static", Dir)];
    assert kept[1..][1..] == [];
    assert MountFiles("*.html", kept[1..]) == [Entry("static", Dir)];
    assert MountFiles("*.html", kept) == kept;
  }

  lemma HtmlVerdicts()
    ensures Excluded("*.html", "demo.html")
    ensures !Excluded("*.html", "favicon.ico")
    ensures !Excluded("*.html", "static")
  {
    DemoExcluded();
    FaviconKept();
    StaticKept();
  }

  lemma DemoExcluded()
    ensures Excluded("*.html", "demo.html")
  {
    var html := ".html";
    assert Glob.Literal(html);
    assert "*" + html == "*.html";
    StarSuffixExcludes(html, "demo.html");
    assert "demo.html"[4..] == html;
  }

  lemma FaviconKept()
    ensures !Excluded("*.html", "favicon.ico")
  {
    var html := ".html";
    assert Glob.Literal(html);
    assert "*" + html == "*.html";
    StarSuffixExcludes(html, "favicon.ico");
    assert "favicon.ico"[6..][0] == 'n';
  }

  lemma StaticKept()
    ensures !Excluded("*.html", "static")
  {
    var html := ".html";
    assert Glob.Literal(html);
    assert "*" + html == "*.html";
    StarSuffixExcludes(html, "static");
    assert "static"[1..][0] == 't';
  }

  // ---------------------------------------------------------------------------
  // Routes

  /** The text a route pattern starts with: the prefix and a separator. */
  function Lead(prefix: string): string {
    if prefix == "/" then prefix else prefix + "/"
  }

  /** Under a clean rooted prefix, an entry's pattern is the prefix, '/', the
      name, and a final '/' exactly for directories. */
  lemma PatternShape(prefix: string, e: Entry)
    requires Canonical(prefix)
    requires Proper(e.name)
    ensures RoutePattern(prefix, e) == Lead(prefix) + e.name + (if e.kind == Dir then "/" else "")
  {
    JoinName(prefix, e.name);
  }

  /** A proper name joined under a clean rooted prefix. */
  lemma JoinName(prefix: string, name: string)
    requires Canonical(prefix)
    requires Proper(name)
    ensures Join(prefix, name) == Lead(prefix) + name
  {
    var pre := Segments(prefix);
    assert prefix == "/" + JoinSegs(pre) && AllProper(pre) by {
      CanonicalShape(prefix);
    }
    assert Join(prefix, name) == "/" + JoinSegs(pre + [name]) by {
      SplitPlain(name);
      JoinSegments(prefix, name);
      ResolveProper(true, pre, [name]);
    }
    if |pre| > 0 {
      assert JoinSegs(pre + [name]) == JoinSegs(pre) + "/" + name by {
        JoinSegsConcat(pre, [name]);
      }
      assert prefix != "/" by {
        JoinSegsHead(pre);
      }
      var j := JoinSegs(pre);
      TextAssoc("/", j + "/", name);
      TextAssoc("/", j, "/");
    } else {
      assert pre + [name] == [name];
    }
  }

  /** What the file server sees: stripping the route's prefix from its pattern
      leaves "/" and the entry's name (and '/' for a directory), the path of
      the entry inside the build directory. */
  lemma ServedPath(prefix: string, e: Entry)
    requires Canonical(prefix)
    requires Proper(e.name)
    ensures var r := Routes(prefix, [e])[0];
      var tail := "/" + e.name + (if e.kind == Dir then "/" else "");
      if r.strip.Some? then StartsWith(r.pattern, r.strip.value) && r.pattern[|r.strip.value|..] == tail
      else r.pattern == tail
  {
    PatternShape(prefix, e);
  }

  /** Two entries with proper names get the same pattern only if they are
      the same entry. */
  lemma PatternInjective(prefix: string, a: Entry, b: Entry)
    requires Canonical(prefix)
    requires Proper(a.name) && Proper(b.name)
    requires RoutePattern(prefix, a) == RoutePattern(prefix, b)
    ensures a == b
  {
    PatternShape(prefix, a);
    PatternShape(prefix, b);
    var lead := Lead(prefix);
    var pa := lead + a.name + (if a.kind == Dir then "/" else "");
    var pb := lead + b.name + (if b.kind == Dir then "/" else "");
    assert pa[|lead|..] == a.name + (if a.kind == Dir then "/" else "");
    assert pb[|lead|..] == b.name + (if b.kind == Dir then "/" else "");
    assert pa == pb;
    assert pa[|pa| - 1] == if a.kind == Dir then '/' else a.name[|a.name| - 1];
    assert pb[|pb| - 1] == if b.kind == Dir then '/' else b.name[|b.name| - 1];
    assert a.name[|a.name| - 1] != '/' && b.name[|b.name| - 1] != '/';
    if a.kind != b.kind {
      assert false;
    } else if a.kind == Dir {
      assert a.name == pa[|lead|..|pa| - 1];
      assert b.name == pb[|lead|..|pb| - 1];
    } else {
      assert a.name == pa[|lead|..];
      assert b.name == pb[|lead|..];
    }
  }

  /** Names in a directory listing are proper and pairwise different. */
  predicate ValidListing(entries: seq<Entry>) {
    && (forall i :: 0 <= i < |entries| ==> Proper(entries[i].name))
    && (forall i, j :: 0 <= i < j < |entries| ==> entries[i].name != entries[j].name)
  }

  /** Every kept entry is routable and no excluded one is: an entry's pattern
      is among the mounted routes exactly when the pattern does not exclude it. */
  lemma RoutableIffKept(prefix: string, pattern: string, entries: seq<Entry>, e: Entry)
    requires Canonical(prefix)
    requires ValidListing(entries)
    requires e in entries
    ensures (exists r :: r in Routes(prefix, MountFiles(pattern, entries)) && r.pattern == RoutePattern(prefix, e))
        <==> !Excluded(pattern, e.name)
  {
    var kept := MountFiles(pattern, entries);
    var routes := Routes(prefix, kept);
    MountFilesMembers(pattern, entries);
    if !Excluded(pattern, e.name) {
      assert e in kept;
      var i :| 0 <= i < |kept| && kept[i] == e;
      assert routes[i] in routes;
    } else {
      forall r | r in routes ensures r.pattern != RoutePattern(prefix, e) {
        var i :| 0 <= i < |routes| && routes[i] == r;
        var f := kept[i];
        assert f in kept;
        assert f in entries;
        if r.pattern == RoutePattern(prefix, e) {
          PatternInjective(prefix, f, e);
          assert false;
        }
      }
    }
  }
}
