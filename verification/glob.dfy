/** The part of Go's `filepath.Match` used to exclude top-level entries from
    mounting: `*` stands for any run of non-'/' characters, `?` for one
    non-'/' character, `\` makes the next character literal, and every other
    character stands for itself. Character classes (`[...]`) are not part of
    this model; a pattern that uses one is reported as malformed. */
module Glob {
  import opened Wrappers
  import opened Paths

  datatype GlobError = BadPattern

  /** A character with a meaning of its own in a pattern. */
  predicate Special(c: char) {
    c == '*' || c == '?' || c == '\\' || c == '['
  }

  /** A pattern without special characters: it matches only itself. */
  predicate Literal(p: string) {
    forall i :: 0 <= i < |p| ==> !Special(p[i])
  }

  /** Every '\' is followed by the character it escapes, and no class is opened. */
  predicate WellFormed(p: string)
    decreases |p|
  {
    if |p| == 0 then true
    else if p[0] == '[' then false
    else if p[0] == '\\' then |p| >= 2 && WellFormed(p[2..])
    else WellFormed(p[1..])
  }

  /** Whether the whole of `s` matches the pattern `p`. */
  predicate Matches(p: string, s: string)
    decreases |p| + |s|
  {
    if |p| == 0 then |s| == 0
    else if p[0] == '*' then
      Matches(p[1..], s) || (|s| > 0 && s[0] != '/' && Matches(p, s[1..]))
    else if p[0] == '?' then
      |s| > 0 && s[0] != '/' && Matches(p[1..], s[1..])
    else if p[0] == '\\' then
      |p| >= 2 && |s| > 0 && s[0] == p[1] && Matches(p[2..], s[1..])
    else
      |s| > 0 && s[0] == p[0] && Matches(p[1..], s[1..])
  }

  /** `filepath.Match(pattern, name)`: a malformed pattern is an error
      whatever the name; otherwise the answer is whether the name matches. */
  function Match(pattern: string, name: string): (r: Result<bool, GlobError>)
    ensures r.Failure? <==> !WellFormed(pattern)
    ensures r.Success? ==> (r.value <==> Matches(pattern, name))
  {
    if WellFormed(pattern) then Success(Matches(pattern, name)) else Failure(BadPattern)
  }

  /** A literal pattern matches exactly the text it spells. */
  lemma {:induction false} LiteralMatch(lit: string, s: string)
    requires Literal(lit)
    ensures Matches(lit, s) <==> s == lit
  {
    if |lit| > 0 {
      assert Literal(lit[1..]) by {
        forall i | 0 <= i < |lit[1..]| ensures !Special(lit[1..][i]) {
          assert lit[1..][i] == lit[i + 1];
        }
      }
      assert !Special(lit[0]);
      if |s| > 0 {
        LiteralMatch(lit[1..], s[1..]);
        if s[0] == lit[0] && s[1..] == lit[1..] {
          assert s == [s[0]] + s[1..] && lit == [lit[0]] + lit[1..];
        }
      }
    }
  }

  /** `*` followed by a literal matches exactly the names without '/' that end
      in that literal; `*.html` is the case used for mounting. */
  lemma {:induction false} StarSuffix(lit: string, s: string)
    requires Literal(lit)
    requires '/' !in lit
    ensures Matches("*" + lit, s) <==> '/' !in s && EndsWith(s, lit)
  {
    var p := "*" + lit;
    assert p[0] == '*' && p[1..] == lit;
    LiteralMatch(lit, s);
    if |s| > 0 {
      StarSuffix(lit, s[1..]);
      assert '/' !in s <==> s[0] != '/' && '/' !in s[1..] by {
        assert s == [s[0]] + s[1..];
      }
      if |lit| < |s| {
        assert s[|s| - |lit|..] == s[1..][|s[1..]| - |lit|..];
      }
    }
  }

  /** The empty pattern matches only the empty name. */
  lemma EmptyPattern(name: string)
    ensures Match("", name) == Success(name == "")
  {
  }
}
