/** Lexical path handling as done by Go's `path/filepath` with '/' as the only
    separator: `Clean` and the two-element `Join` used throughout manifest.go.

    A path is split at every '/' into a list of segments; `Clean` then runs the
    segments through a stack (`Resolve`) that drops empty and "." segments and
    lets ".." cancel the segment before it, and renders the stack again. */
module Paths {

  /** `strings.Index(s, prefix) == 0`: `s` begins with the text `prefix`. */
  predicate StartsWith(s: string, prefix: string) {
    |prefix| <= |s| && s[..|prefix|] == prefix
  }

  /** Concatenation of text regroups freely. */
  lemma TextAssoc(a: string, b: string, c: string)
    ensures (a + b) + c == a + (b + c)
  {
  }

  /** `s` ends with the text `suffix`. */
  predicate EndsWith(s: string, suffix: string) {
    |suffix| <= |s| && s[|s| - |suffix|..] == suffix
  }

  predicate Rooted(s: string) {
    |s| > 0 && s[0] == '/'
  }

  /** A segment that can survive cleaning of a rooted path. */
  predicate Proper(seg: string) {
    seg != "" && seg != "." && seg != ".." && '/' !in seg
  }

  predicate AllProper(segs: seq<string>) {
    forall i :: 0 <= i < |segs| ==> Proper(segs[i])
  }

  predicate NoSeparator(segs: seq<string>) {
    forall i :: 0 <= i < |segs| ==> '/' !in segs[i]
  }

  /** The shape of every stack `Resolve` builds: proper segments, possibly
      preceded (only when the path is not rooted) by a run of "..". */
  predicate Resolved(rooted: bool, segs: seq<string>) {
    && (forall i :: 0 <= i < |segs| ==> Proper(segs[i]) || (!rooted && segs[i] == ".."))
    && (forall i, j :: 0 <= i < j < |segs| && segs[j] == ".." ==> segs[i] == "..")
  }

  /** Splits at every '/', keeping empty pieces: "/a//b" gives ["", "a", "", "b"]. */
  function Split(s: string): (r: seq<string>)
    ensures |r| >= 1
    ensures NoSeparator(r)
  {
    if |s| == 0 then [""]
    else
      var rest := Split(s[1..]);
      if s[0] == '/' then [""] + rest
      else [[s[0]] + rest[0]] + rest[1..]
  }

  /** Puts segments back together with '/' between them. */
  function JoinSegs(segs: seq<string>): string
  {
    if |segs| == 0 then ""
    else if |segs| == 1 then segs[0]
    else segs[0] + "/" + JoinSegs(segs[1..])
  }

  /** One segment through the cleaning stack. */
  function Step(rooted: bool, stack: seq<string>, seg: string): seq<string>
  {
    if seg == "" || seg == "." then stack
    else if seg == ".." then
      if |stack| > 0 && stack[|stack| - 1] != ".." then stack[..|stack| - 1]
      else if rooted then stack
      else stack + [".."]
    else stack + [seg]
  }

  function Resolve(rooted: bool, stack: seq<string>, segs: seq<string>): seq<string>
    decreases |segs|
  {
    if |segs| == 0 then stack
    else Resolve(rooted, Step(rooted, stack, segs[0]), segs[1..])
  }

  function Render(rooted: bool, segs: seq<string>): string
  {
    if rooted then "/" + JoinSegs(segs)
    else if |segs| == 0 then "."
    else JoinSegs(segs)
  }

  /** The segments a path keeps after cleaning. */
  function Segments(s: string): seq<string>
  {
    Resolve(Rooted(s), [], Split(s))
  }

  /** `filepath.Clean`. */
  function Clean(s: string): (r: string)
    ensures r != ""
    ensures Rooted(r) <==> Rooted(s)
    ensures Rooted(s) ==> AllProper(Segments(s))
  {
    if s == "" then "."
    else
      ResolveKeepsShape(Rooted(s), [], Split(s));
      var segs := Segments(s);
      assert !Rooted(s) && |segs| > 0 ==> !Rooted(JoinSegs(segs)) by {
        if !Rooted(s) && |segs| > 0 {
          assert Proper(segs[0]) || segs[0] == "..";
          JoinSegsHead(segs);
        }
      }
      Render(Rooted(s), segs)
  }

  /** `filepath.Join(a, b)`: empty elements are ignored, the rest are joined
      with '/' and cleaned; two empty elements give "". */
  function Join(a: string, b: string): (r: string)
    ensures Rooted(a) ==> Rooted(r)
    ensures a == "" && b == "" <==> r == ""
  {
    if a == "" && b == "" then ""
    else if a == "" then Clean(b)
    else if b == "" then Clean(a)
    else Clean(a + "/" + b)
  }

  /** A path `Clean` leaves alone and that starts at the root. */
  predicate Canonical(s: string) {
    Rooted(s) && Clean(s) == s
  }

  /** No ".." among the segments of `p`. */
  predicate NoDotDot(p: string) {
    ".." !in Split(p)
  }

  // ---------------------------------------------------------------------------
  // Splitting and joining

  lemma JoinSegsHead(segs: seq<string>)
    requires |segs| > 0
    ensures StartsWith(JoinSegs(segs), segs[0])
  {
  }

  /** Splitting at a separator splits the two sides independently. */
  lemma {:induction false} SplitConcat(a: string, b: string)
    ensures Split(a + "/" + b) == Split(a) + Split(b)
  {
    if |a| == 0 {
      assert a + "/" + b == "/" + b;
      assert ("/" + b)[1..] == b;
    } else {
      assert (a + "/" + b)[1..] == a[1..] + "/" + b;
      SplitConcat(a[1..], b);
    }
  }

  /** A text without '/' is a single segment. */
  lemma {:induction false} SplitPlain(s: string)
    requires '/' !in s
    ensures Split(s) == [s]
  {
    if |s| > 0 {
      assert '/' !in s[1..] by {
        forall i | 0 <= i < |s[1..]| ensures s[1..][i] != '/' {
          assert s[1..][i] == s[i + 1];
        }
      }
      SplitPlain(s[1..]);
      assert [s[0]] + s[1..] == s;
    }
  }

  /** Round trip: segments without '/' come back out of the path they form. */
  lemma {:induction false} SplitJoinSegs(segs: seq<string>)
    requires |segs| > 0
    requires NoSeparator(segs)
    ensures Split(JoinSegs(segs)) == segs
  {
    if |segs| == 1 {
      SplitPlain(segs[0]);
    } else {
      SplitPlain(segs[0]);
      SplitJoinSegs(segs[1..]);
      SplitConcat(segs[0], JoinSegs(segs[1..]));
      assert segs == [segs[0]] + segs[1..];
    }
  }

  /** Round trip the other way: every text is the join of its split. */
  lemma {:induction false} JoinSegsSplit(s: string)
    ensures JoinSegs(Split(s)) == s
  {
    if |s| > 0 {
      JoinSegsSplit(s[1..]);
      var rest := Split(s[1..]);
      if s[0] == '/' {
        assert Split(s) == [""] + rest;
        assert ([""] + rest)[1..] == rest;
        assert s == "/" + s[1..];
      } else {
        var r := Split(s);
        assert r == [[s[0]] + rest[0]] + rest[1..];
        if |rest| == 1 {
          assert s == [s[0]] + s[1..];
        } else {
          assert r[1..] == rest[1..];
          assert JoinSegs(rest) == rest[0] + "/" + JoinSegs(rest[1..]);
          assert s == [s[0]] + s[1..];
        }
      }
    }
  }

  lemma {:induction false} JoinSegsConcat(a: seq<string>, b: seq<string>)
    requires |a| > 0 && |b| > 0
    ensures JoinSegs(a + b) == JoinSegs(a) + "/" + JoinSegs(b)
  {
    if |a| == 1 {
      assert (a + b)[1..] == b;
    } else {
      assert (a + b)[1..] == a[1..] + b;
      JoinSegsConcat(a[1..], b);
    }
  }

  // ---------------------------------------------------------------------------
  // The cleaning stack

  lemma {:induction false} ResolveConcat(rooted: bool, stack: seq<string>, a: seq<string>, b: seq<string>)
    ensures Resolve(rooted, stack, a + b) == Resolve(rooted, Resolve(rooted, stack, a), b)
    decreases |a|
  {
    if |a| == 0 {
      assert a + b == b;
    } else {
      assert (a + b)[0] == a[0];
      assert (a + b)[1..] == a[1..] + b;
      ResolveConcat(rooted, Step(rooted, stack, a[0]), a[1..], b);
    }
  }

  /** Proper segments are pushed one by one. */
  lemma {:induction false} ResolveProper(rooted: bool, stack: seq<string>, segs: seq<string>)
    requires AllProper(segs)
    ensures Resolve(rooted, stack, segs) == stack + segs
    decreases |segs|
  {
    if |segs| > 0 {
      ResolveProper(rooted, stack + [segs[0]], segs[1..]);
      assert stack + [segs[0]] + segs[1..] == stack + segs;
    }
  }

  /** Without "..", what is already on the stack is never touched. */
  lemma {:induction false} ResolveNoDotDot(rooted: bool, stack: seq<string>, segs: seq<string>)
    requires ".." !in segs
    ensures Resolve(rooted, stack, segs) == stack + Resolve(rooted, [], segs)
    decreases |segs|
  {
    if |segs| > 0 {
      assert ".." !in segs[1..];
      var seg := segs[0];
      if seg == "" || seg == "." {
        ResolveNoDotDot(rooted, stack, segs[1..]);
        ResolveNoDotDot(rooted, [], segs[1..]);
      } else {
        assert seg != ".." by {
          assert segs[0] in segs;
        }
        var rest := Resolve(rooted, [], segs[1..]);
        calc {
          Resolve(rooted, stack, segs);
          { assert Step(rooted, stack, seg) == stack + [seg]; }
          Resolve(rooted, stack + [seg], segs[1..]);
          { ResolveNoDotDot(rooted, stack + [seg], segs[1..]); }
          stack + [seg] + rest;
          stack + ([seg] + rest);
          { ResolveNoDotDot(rooted, [seg], segs[1..]); }
          stack + Resolve(rooted, [seg], segs[1..]);
          { assert Step(rooted, [], seg) == [seg]; }
          stack + Resolve(rooted, [], segs);
        }
      }
    }
  }

  lemma StepKeepsShape(rooted: bool, stack: seq<string>, seg: string)
    requires Resolved(rooted, stack)
    requires '/' !in seg
    ensures Resolved(rooted, Step(rooted, stack, seg))
  {
    var r := Step(rooted, stack, seg);
    if seg == ".." && !(|stack| > 0 && stack[|stack| - 1] != "..") && !rooted {
      forall i | 0 <= i < |r| ensures r[i] == ".." {
        if i < |stack| {
          assert stack[i] == "..";
        }
      }
    }
  }

  lemma {:induction false} ResolveKeepsShape(rooted: bool, stack: seq<string>, segs: seq<string>)
    requires Resolved(rooted, stack)
    requires NoSeparator(segs)
    ensures Resolved(rooted, Resolve(rooted, stack, segs))
    decreases |segs|
  {
    if |segs| > 0 {
      StepKeepsShape(rooted, stack, segs[0]);
      ResolveKeepsShape(rooted, Step(rooted, stack, segs[0]), segs[1..]);
    }
  }

  /** A stack of the resolved shape passes through `Resolve` unchanged. */
  lemma {:induction false} ResolveResolved(rooted: bool, segs: seq<string>, i: nat)
    requires Resolved(rooted, segs)
    requires i <= |segs|
    ensures Resolve(rooted, segs[..i], segs[i..]) == segs
    decreases |segs| - i
  {
    if i == |segs| {
      assert segs[..i] == segs;
    } else {
      var stack := segs[..i];
      assert Step(rooted, stack, segs[i]) == segs[..i + 1] by {
        if segs[i] == ".." && |stack| > 0 {
          assert stack[|stack| - 1] == segs[i - 1] == "..";
        }
      }
      assert segs[i..][1..] == segs[i + 1..];
      ResolveResolved(rooted, segs, i + 1);
    }
  }

  // ---------------------------------------------------------------------------
  // Clean and Join

  /** Every non-empty path `Join` returns is already clean; the empty result
      (both parts empty) is not, since cleaning it gives ".". */
  lemma JoinIsClean(a: string, b: string)
    ensures Join(a, b) != "" ==> Clean(Join(a, b)) == Join(a, b)
    ensures Join(a, b) == "" ==> Clean(Join(a, b)) == "."
  {
    if a == "" && b == "" {
      assert Split("") == [""];
    } else if a == "" {
      CleanIdempotent(b);
    } else if b == "" {
      CleanIdempotent(a);
    } else {
      CleanIdempotent(a + "/" + b);
    }
  }

  /** `Clean` is idempotent, for rooted and relative paths alike. */
  lemma CleanIdempotent(s: string)
    ensures Clean(Clean(s)) == Clean(s)
  {
    if s != "" {
      var rooted := Rooted(s);
      var segs := Segments(s);
      if rooted {
        assert AllProper(segs) by {
          var c := Clean(s);
        }
        RenderCanonical(segs);
      } else {
        ResolveKeepsShape(rooted, [], Split(s));
        ResolveResolved(rooted, segs, 0);
        assert segs[..0] == [] && segs[0..] == segs;
        if |segs| == 0 {
          SplitPlain(".");
        } else {
          SplitJoinSegs(segs);
        }
      }
    }
  }

  /** Clean rooted paths are exactly "/" followed by proper segments. */
  lemma CanonicalShape(s: string)
    requires Canonical(s)
    ensures AllProper(Segments(s))
    ensures s == "/" + JoinSegs(Segments(s))
  {
  }

  lemma {:induction false} RenderCanonical(segs: seq<string>)
    requires AllProper(segs)
    ensures Canonical("/" + JoinSegs(segs))
    ensures Segments("/" + JoinSegs(segs)) == segs
  {
    var c := "/" + JoinSegs(segs);
    assert c == "" + "/" + JoinSegs(segs);
    SplitConcat("", JoinSegs(segs));
    if |segs| > 0 {
      SplitJoinSegs(segs);
    } else {
      assert Split("") == [""];
    }
    ResolveConcat(true, [], [""], Split(JoinSegs(segs)));
    if |segs| > 0 {
      ResolveProper(true, [], segs);
    } else {
      assert Resolve(true, [], [""]) == [];
    }
    assert Rooted(c);
    assert Segments(c) == segs;
    assert Clean(c) == Render(true, segs);
  }

  /** Joining "/" with a path roots it; rooting a clean rooted path changes nothing. */
  lemma JoinRoot(p: string)
    ensures Canonical(Join("/", p))
    ensures Canonical(p) ==> Join("/", p) == p
  {
    if p == "" {
      assert Join("/", p) == Clean("/");
      assert Split("/") == ["", ""];
    } else {
      var j := "/" + "/" + p;
      assert j == "" + "/" + ("" + "/" + p);
      SplitConcat("", "" + "/" + p);
      SplitConcat("", p);
      assert Split(j) == [""] + [""] + Split(p);
      ResolveConcat(true, [], [""] + [""], Split(p));
      CleanIdempotent(j);
      if Canonical(p) {
        ResolveKeepsShape(true, [], Split(p));
        assert Segments(j) == Segments(p);
      }
    }
  }

  /** Joining a rooted path with anything gives a clean rooted path. */
  lemma JoinRootedCanonical(a: string, b: string)
    requires Rooted(a)
    ensures Canonical(Join(a, b))
  {
    if b == "" {
      CleanIdempotent(a);
    } else {
      CleanIdempotent(a + "/" + b);
    }
  }

  /** Joining a clean rooted path with a path free of ".." only appends to it:
      the result is the first path itself or that path, '/', and more. */
  lemma JoinExtends(a: string, b: string)
    requires Canonical(a)
    requires NoDotDot(b)
    ensures Join(a, b) == a || StartsWith(Join(a, b), if a == "/" then a else a + "/")
  {
    if b != "" {
      var pre := Segments(a);
      var tail := Resolve(true, [], Split(b));
      var r := Join(a, b);
      assert r == "/" + JoinSegs(pre + tail) by {
        JoinSegments(a, b);
        ResolveNoDotDot(true, pre, Split(b));
      }
      assert a == "/" + JoinSegs(pre) by {
        CanonicalShape(a);
      }
      SegmentsExtend(pre, tail);
    }
  }

  /** Rendering more segments after `pre` gives the rendering of `pre` itself
      or a path that continues it after a '/'. */
  lemma SegmentsExtend(pre: seq<string>, tail: seq<string>)
    ensures var a, r := "/" + JoinSegs(pre), "/" + JoinSegs(pre + tail);
      r == a || StartsWith(r, if a == "/" then a else a + "/")
  {
    var a, r := "/" + JoinSegs(pre), "/" + JoinSegs(pre + tail);
    if |pre| > 0 && |tail| > 0 {
      JoinSegsConcat(pre, tail);
      assert r == a + "/" + JoinSegs(tail);
      assert r[..|a + "/"|] == a + "/";
    } else if |tail| == 0 {
      assert pre + tail == pre;
    } else {
      assert r[..1] == "/";
    }
  }

  /** Joining onto a rooted path resolves the second path's segments on top of
      the first path's. */
  lemma JoinSegments(a: string, b: string)
    requires Rooted(a) && b != ""
    ensures Join(a, b) == "/" + JoinSegs(Resolve(true, Segments(a), Split(b)))
  {
    SplitConcat(a, b);
    ResolveConcat(true, [], Split(a), Split(b));
  }

  /** The segments of a relative path made of proper segments. */
  lemma SplitProper(segs: seq<string>)
    requires |segs| > 0 && AllProper(segs)
    ensures Split(JoinSegs(segs)) == segs
    ensures Resolve(true, [], Split(JoinSegs(segs))) == segs
  {
    SplitJoinSegs(segs);
    ResolveProper(true, [], segs);
  }
}
