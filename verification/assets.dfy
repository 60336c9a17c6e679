/** Classification and ordering of the entries of a Create React App
    `asset-manifest.json` into the list of script URLs and the list of style
    sheet URLs (manifest.go, `processAssetsURLs`).

    The manifest's `files` object is a map from asset name to path. Go visits
    the keys of a map in no fixed order, so every operation that walks the map
    takes that walk as an argument `order`: any sequence listing each key of the
    map exactly once (`IsKeyOrder`). Every property below holds for all such
    orders. */
module Assets {
  import opened Paths

  const RuntimeJSKey := "runtime~main.js"
  const MainJSKey := "main.js"
  const MainCSSKey := "main.css"

  const JSChunkDir := "static/js/"
  const JSChunkSuffix := ".chunk.js"
  const CSSChunkDir := "static/css/"
  const CSSChunkSuffix := ".chunk.css"

  /** The grouped view: script URLs and style sheet URLs, in emission order. */
  datatype MData = MData(js: seq<string>, css: seq<string>)

  datatype ChunkKind = JSChunk | CSSChunk | NotChunk

  // ---------------------------------------------------------------------------
  // Chunk names: `^static/js/\d+\.[a-z0-9]+\.chunk\.js$` and its CSS analogue

  predicate IsDigit(c: char) {
    '0' <= c <= '9'
  }

  predicate IsHashChar(c: char) {
    'a' <= c <= 'z' || IsDigit(c)
  }

  predicate AllDigits(s: string) {
    forall i :: 0 <= i < |s| ==> IsDigit(s[i])
  }

  predicate AllHash(s: string) {
    forall i :: 0 <= i < |s| ==> IsHashChar(s[i])
  }

  /** `\d+\.[a-z0-9]+` read left to right; `seenDigit` records that the run of
      digits before the dot is not empty. */
  predicate NumberDotHash(m: string, seenDigit: bool)
    decreases |m|
  {
    if |m| == 0 then false
    else if m[0] == '.' then seenDigit && |m| > 1 && AllHash(m[1..])
    else IsDigit(m[0]) && NumberDotHash(m[1..], true)
  }

  /** The anchored chunk pattern: `dir`, a number, a dot, a hash, `suffix`. */
  predicate IsChunkName(key: string, dir: string, suffix: string) {
    && |dir| + |suffix| <= |key|
    && StartsWith(key, dir)
    && EndsWith(key, suffix)
    && NumberDotHash(key[|dir|..|key| - |suffix|], false)
  }

  /** The anchored pattern `^DIR\d+\.[a-z0-9]+SUFFIX$` read as positions:
      the key is `dir`, a non-empty run of digits, a dot, a non-empty run of
      hash characters, and `suffix`. */
  predicate ChunkPattern(key: string, dir: string, suffix: string) {
    && |dir| + |suffix| <= |key|
    && StartsWith(key, dir)
    && EndsWith(key, suffix)
    && exists i :: |dir| < i < |key| - |suffix| - 1 && key[i] == '.'
         && AllDigits(key[|dir|..i]) && AllHash(key[i + 1..|key| - |suffix|])
  }

  /** `jsChunkRegexp.MatchString(key)`. */
  predicate IsJSChunk(key: string) {
    IsChunkName(key, JSChunkDir, JSChunkSuffix)
  }

  /** `cssChunkRegexp.MatchString(key)`. */
  predicate IsCSSChunk(key: string) {
    IsChunkName(key, CSSChunkDir, CSSChunkSuffix)
  }

  /** A key is a script chunk exactly when it has the shape of the script
      chunk pattern. */
  lemma IsJSChunkPattern(key: string)
    ensures IsJSChunk(key) <==> ChunkPattern(key, JSChunkDir, JSChunkSuffix)
  {
    ChunkNameIsPattern(key, JSChunkDir, JSChunkSuffix);
  }

  /** A key is a style chunk exactly when it has the shape of the style chunk
      pattern. */
  lemma IsCSSChunkPattern(key: string)
    ensures IsCSSChunk(key) <==> ChunkPattern(key, CSSChunkDir, CSSChunkSuffix)
  {
    ChunkNameIsPattern(key, CSSChunkDir, CSSChunkSuffix);
  }

  /** The scanner and the pattern accept the same keys. */
  lemma ChunkNameIsPattern(key: string, dir: string, suffix: string)
    ensures IsChunkName(key, dir, suffix) <==> ChunkPattern(key, dir, suffix)
  {
    if IsChunkName(key, dir, suffix) {
      ScannedIsPattern(key, dir, suffix);
    }
    if ChunkPattern(key, dir, suffix) {
      PatternIsScanned(key, dir, suffix);
    }
  }

  lemma ScannedIsPattern(key: string, dir: string, suffix: string)
    requires IsChunkName(key, dir, suffix)
    ensures ChunkPattern(key, dir, suffix)
  {
    var lo, hi := |dir|, |key| - |suffix|;
    var m := key[lo..hi];
    assert exists j :: 0 <= j < |m| - 1 && (false || j > 0) && m[j] == '.'
                       && AllDigits(m[..j]) && AllHash(m[j + 1..]) by {
      NumberDotHashIsPattern(m, false);
    }
    var j :| 0 <= j < |m| - 1 && (false || j > 0) && m[j] == '.'
             && AllDigits(m[..j]) && AllHash(m[j + 1..]);
    assert lo < lo + j < hi - 1 && key[lo + j] == '.'
           && AllDigits(key[lo..lo + j]) && AllHash(key[lo + j + 1..hi]) by {
      MiddleSplit(key, lo, hi, j);
    }
  }

  lemma PatternIsScanned(key: string, dir: string, suffix: string)
    requires ChunkPattern(key, dir, suffix)
    ensures IsChunkName(key, dir, suffix)
  {
    var lo, hi := |dir|, |key| - |suffix|;
    var m := key[lo..hi];
    assert NumberDotHash(m, false) by {
      var i :| lo < i < hi - 1 && key[i] == '.'
               && AllDigits(key[lo..i]) && AllHash(key[i + 1..hi]);
      assert 0 <= i - lo < |m| - 1 && i - lo > 0 && m[i - lo] == '.'
             && AllDigits(m[..i - lo]) && AllHash(m[i - lo + 1..]) by {
        MiddleSplit(key, lo, hi, i - lo);
      }
      NumberDotHashIsPattern(m, false);
    }
  }

  /** Cutting the middle part `key[lo..hi]` at `j` is cutting `key` at `lo + j`. */
  lemma MiddleSplit(key: string, lo: nat, hi: nat, j: nat)
    requires lo <= hi <= |key| && j < hi - lo
    ensures key[lo..hi][j] == key[lo + j]
    ensures key[lo..hi][..j] == key[lo..lo + j]
    ensures key[lo..hi][j + 1..] == key[lo + j + 1..hi]
  {
    var m := key[lo..hi];
    var head, keyHead := m[..j], key[lo..lo + j];
    forall k | 0 <= k < |head| ensures head[k] == keyHead[k] {
      assert head[k] == key[lo + k];
    }
    var tail, keyTail := m[j + 1..], key[lo + j + 1..hi];
    forall k | 0 <= k < |tail| ensures tail[k] == keyTail[k] {
      assert tail[k] == key[lo + j + 1 + k];
    }
  }

  /** The loop in `processAssetsURLs` tests the script pattern first. */
  function KindOf(key: string): (k: ChunkKind)
    ensures k == JSChunk <==> IsJSChunk(key)
    ensures k == CSSChunk <==> IsCSSChunk(key)
  {
    ChunkPatternsDisjoint(key);
    if IsJSChunk(key) then JSChunk
    else if IsCSSChunk(key) then CSSChunk
    else NotChunk
  }

  /** No key is both a script chunk and a style chunk: the two patterns part
      at their eighth character. */
  lemma ChunkPatternsDisjoint(key: string)
    ensures !(IsJSChunk(key) && IsCSSChunk(key))
  {
    if IsJSChunk(key) {
      assert key[7] == 'j' by {
        assert key[..|JSChunkDir|] == JSChunkDir;
        assert key[..|JSChunkDir|][7] == key[7];
      }
      assert !StartsWith(key, CSSChunkDir) by {
        assert key[..|CSSChunkDir|][7] == key[7];
      }
    }
  }

  /** The left-to-right reading agrees with the regular expression: some dot,
      preceded by at least one digit and nothing else, followed by at least
      one hash character and nothing else. */
  lemma {:induction false} NumberDotHashIsPattern(m: string, seenDigit: bool)
    ensures NumberDotHash(m, seenDigit) <==>
      exists i :: 0 <= i < |m| - 1 && (seenDigit || i > 0) && m[i] == '.'
                  && AllDigits(m[..i]) && AllHash(m[i + 1..])
  {
    if |m| > 0 {
      if m[0] == '.' {
        if NumberDotHash(m, seenDigit) {
          assert m[..0] == [];
          var i := 0;
          assert 0 <= i < |m| - 1 && (seenDigit || i > 0) && m[i] == '.'
                 && AllDigits(m[..i]) && AllHash(m[i + 1..]);
        }
        forall i | 0 <= i < |m| - 1 && (seenDigit || i > 0) && m[i] == '.'
                   && AllDigits(m[..i]) && AllHash(m[i + 1..])
          ensures NumberDotHash(m, seenDigit)
        {
          DigitsHead(m, i);
        }
      } else {
        NumberDotHashIsPattern(m[1..], true);
        if NumberDotHash(m, seenDigit) {
          var j :| 0 <= j < |m[1..]| - 1 && m[1..][j] == '.'
                   && AllDigits(m[1..][..j]) && AllHash(m[1..][j + 1..]);
          var i := j + 1;
          assert m[i + 1..] == m[1..][j + 1..];
          assert AllDigits(m[..i]) by {
            forall k | 0 <= k < i ensures IsDigit(m[..i][k]) {
              if k > 0 {
                assert m[..i][k] == m[1..][..j][k - 1];
              }
            }
          }
          assert 0 <= i < |m| - 1 && (seenDigit || i > 0) && m[i] == '.'
                 && AllDigits(m[..i]) && AllHash(m[i + 1..]);
        }
        forall i | 0 <= i < |m| - 1 && (seenDigit || i > 0) && m[i] == '.'
                   && AllDigits(m[..i]) && AllHash(m[i + 1..])
          ensures NumberDotHash(m, seenDigit)
        {
          assert i > 0;
          assert m[..i][0] == m[0];
          var j := i - 1;
          assert m[1..][j] == '.';
          assert m[1..][j + 1..] == m[i + 1..];
          assert AllDigits(m[1..][..j]) by {
            forall k | 0 <= k < j ensures IsDigit(m[1..][..j][k]) {
              assert m[1..][..j][k] == m[..i][k + 1];
            }
          }
        }
      }
    }
  }

  /** A non-empty run of digits at the start of `s` starts with a digit. */
  lemma DigitsHead(s: string, i: nat)
    requires i <= |s|
    ensures 0 < i && AllDigits(s[..i]) ==> IsDigit(s[0])
  {
    if 0 < i && AllDigits(s[..i]) {
      assert s[..i][0] == s[0];
    }
  }

  /** Building a chunk name from a number and a hash gives a key the pattern
      accepts, for either directory and suffix. */
  lemma ChunkNameAccepted(dir: string, number: string, hash: string, suffix: string)
    requires |number| > 0 && AllDigits(number)
    requires |hash| > 0 && AllHash(hash)
    ensures IsChunkName(dir + number + "." + hash + suffix, dir, suffix)
  {
    var key := dir + number + "." + hash + suffix;
    var m := number + "." + hash;
    assert key[..|dir|] == dir;
    assert key[|key| - |suffix|..] == suffix;
    assert key[|dir|..|key| - |suffix|] == m;
    var i := |number|;
    assert m[..i] == number && m[i + 1..] == hash && m[i] == '.';
    NumberDotHashIsPattern(m, false);
  }

  // ---------------------------------------------------------------------------
  // Walking the map

  /** Every key the walk visits is a key of the map. */
  predicate KeysIn(files: map<string, string>, keys: seq<string>) {
    forall i :: 0 <= i < |keys| ==> keys[i] in files
  }

  predicate Distinct(keys: seq<string>) {
    forall i, j :: 0 <= i < j < |keys| ==> keys[i] != keys[j]
  }

  /** A possible order of a Go `range` over the map: each key exactly once. */
  predicate IsKeyOrder(files: map<string, string>, order: seq<string>) {
    && Distinct(order)
    && KeysIn(files, order)
    && forall k :: k in files ==> k in order
  }

  /** The value of `key` as a list of at most one element. */
  function Slot(files: map<string, string>, key: string): (r: seq<string>)
    ensures |r| <= 1
    ensures |r| == 1 <==> key in files
    ensures |r| == 1 ==> r[0] == files[key]
  {
    if key in files then [files[key]] else []
  }

  /** Reference definition: the values of the visited chunk keys of one kind,
      in visiting order. */
  function Picked(files: map<string, string>, keys: seq<string>, kind: ChunkKind): seq<string>
    requires KeysIn(files, keys)
  {
    if |keys| == 0 then []
    else (if KindOf(keys[0]) == kind then [files[keys[0]]] else []) + Picked(files, keys[1..], kind)
  }

  /** `mdata.appendJS`: adds one script URL at the end. */
  function AppendJS(m: MData, url: string): (r: MData)
    ensures |r.js| == |m.js| + 1 && r.js[..|m.js|] == m.js && r.js[|m.js|] == url
    ensures r.css == m.css
  {
    m.(js := m.js + [url])
  }

  /** `mdata.appendCSS`: adds one style sheet URL at the end. */
  function AppendCSS(m: MData, url: string): (r: MData)
    ensures |r.css| == |m.css| + 1 && r.css[..|m.css|] == m.css && r.css[|m.css|] == url
    ensures r.js == m.js
  {
    m.(css := m.css + [url])
  }

  /** The `for key := range files` loop: a script chunk goes to `js` (and the
      loop continues), otherwise a style chunk goes to `css`. */
  function Scan(files: map<string, string>, keys: seq<string>, acc: MData): (r: MData)
    requires KeysIn(files, keys)
    ensures r.js == acc.js + Picked(files, keys, JSChunk)
    ensures r.css == acc.css + Picked(files, keys, CSSChunk)
    decreases |keys|
  {
    if |keys| == 0 then acc
    else
      ScanStep(files, keys, acc);
      Scan(files, keys[1..], Visit(files, keys[0], acc))
  }

  /** One iteration of the loop: a script chunk goes to `js`, otherwise a
      style chunk goes to `css`, anything else is skipped. */
  function Visit(files: map<string, string>, key: string, acc: MData): (r: MData)
    requires key in files
    ensures r.js == acc.js + (if KindOf(key) == JSChunk then [files[key]] else [])
    ensures r.css == acc.css + (if KindOf(key) == CSSChunk then [files[key]] else [])
  {
    if IsJSChunk(key) then AppendJS(acc, files[key])
    else if IsCSSChunk(key) then AppendCSS(acc, files[key])
    else acc
  }

  /** What one iteration adds is what `Picked` takes from the head of the walk. */
  lemma ScanStep(files: map<string, string>, keys: seq<string>, acc: MData)
    requires KeysIn(files, keys) && |keys| > 0
    ensures KeysIn(files, keys[1..])
    ensures Visit(files, keys[0], acc).js + Picked(files, keys[1..], JSChunk) == acc.js + Picked(files, keys, JSChunk)
    ensures Visit(files, keys[0], acc).css + Picked(files, keys[1..], CSSChunk) == acc.css + Picked(files, keys, CSSChunk)
  {
    var key := keys[0];
    assert KeysIn(files, keys[1..]) by {
      forall i | 0 <= i < |keys[1..]| ensures keys[1..][i] in files {
        assert keys[1..][i] == keys[i + 1];
      }
    }
    var v := Visit(files, key, acc);
    var hj := if KindOf(key) == JSChunk then [files[key]] else [];
    var hc := if KindOf(key) == CSSChunk then [files[key]] else [];
    var pj, pc := Picked(files, keys[1..], JSChunk), Picked(files, keys[1..], CSSChunk);
    assert Picked(files, keys, JSChunk) == hj + pj;
    assert Picked(files, keys, CSSChunk) == hc + pc;
    ConcatAssoc(acc.js, hj, pj);
    ConcatAssoc(acc.css, hc, pc);
  }

  lemma ConcatAssoc(a: seq<string>, b: seq<string>, c: seq<string>)
    ensures (a + b) + c == a + (b + c)
  {
  }


  /** `processAssetsURLs`: the runtime script first, then the script chunks in
      walk order, then `main.js`; the style chunks in walk order, then
      `main.css`. */
  function ProcessAssetsURLs(files: map<string, string>, order: seq<string>): (r: MData)
    requires IsKeyOrder(files, order)
    ensures r.js == Slot(files, RuntimeJSKey) + Picked(files, order, JSChunk) + Slot(files, MainJSKey)
    ensures r.css == Picked(files, order, CSSChunk) + Slot(files, MainCSSKey)
  {
    var m0 := MData([], []);
    var m1 := if RuntimeJSKey in files then AppendJS(m0, files[RuntimeJSKey]) else m0;
    var m2 := Scan(files, order, m1);
    var m3 := if MainJSKey in files then AppendJS(m2, files[MainJSKey]) else m2;
    var m4 := if MainCSSKey in files then AppendCSS(m3, files[MainCSSKey]) else m3;
    m4
  }

  // ---------------------------------------------------------------------------
  // Which keys end up where

  /** The keys whose values the script list holds. */
  predicate InJS(key: string) {
    key == RuntimeJSKey || KindOf(key) == JSChunk || key == MainJSKey
  }

  /** The keys whose values the style list holds. */
  predicate InCSS(key: string) {
    KindOf(key) == CSSChunk || key == MainCSSKey
  }

  /** The designated names are not chunk names, and no key feeds both lists. */
  lemma ClassesDisjoint(key: string)
    ensures KindOf(RuntimeJSKey) == NotChunk
    ensures KindOf(MainJSKey) == NotChunk
    ensures KindOf(MainCSSKey) == NotChunk
    ensures !(InJS(key) && InCSS(key))
  {
    assert !StartsWith(RuntimeJSKey, JSChunkDir) by { assert RuntimeJSKey[0] != JSChunkDir[0]; }
    assert !StartsWith(RuntimeJSKey, CSSChunkDir) by { assert RuntimeJSKey[0] != CSSChunkDir[0]; }
    assert !StartsWith(MainJSKey, JSChunkDir) by { assert MainJSKey[0] != JSChunkDir[0]; }
    assert !StartsWith(MainJSKey, CSSChunkDir) by { assert MainJSKey[0] != CSSChunkDir[0]; }
    assert !StartsWith(MainCSSKey, JSChunkDir) by { assert MainCSSKey[0] != JSChunkDir[0]; }
    assert !StartsWith(MainCSSKey, CSSChunkDir) by { assert MainCSSKey[0] != CSSChunkDir[0]; }
  }

  /** Source maps and media files are in neither list. */
  lemma OtherAssetsIgnored()
    ensures !InJS("main.js.map") && !InCSS("main.js.map")
    ensures !InJS("static/media/logo.svg") && !InCSS("static/media/logo.svg")
  {
    var sourceMap := "main.js.map";
    assert !StartsWith(sourceMap, JSChunkDir) by { assert sourceMap[..|JSChunkDir|][0] == 'm'; }
    assert !StartsWith(sourceMap, CSSChunkDir) by { assert sourceMap[..|CSSChunkDir|][0] == 'm'; }
    var logo := "static/media/logo.svg";
    assert logo[7] == 'm';
    assert !StartsWith(logo, JSChunkDir) by { assert logo[..|JSChunkDir|][7] == 'm'; }
    assert !StartsWith(logo, CSSChunkDir) by { assert logo[..|CSSChunkDir|][7] == 'm'; }
  }

  lemma {:induction false} PickedConcat(files: map<string, string>, a: seq<string>, b: seq<string>, kind: ChunkKind)
    requires KeysIn(files, a) && KeysIn(files, b)
    ensures KeysIn(files, a + b)
    ensures Picked(files, a + b, kind) == Picked(files, a, kind) + Picked(files, b, kind)
    decreases |a|
  {
    if |a| == 0 {
      assert a + b == b;
    } else {
      var head := if KindOf(a[0]) == kind then [files[a[0]]] else [];
      assert (a + b)[0] == a[0] && (a + b)[1..] == a[1..] + b;
      PickedConcat(files, a[1..], b, kind);
      ConcatAssoc(head, Picked(files, a[1..], kind), Picked(files, b, kind));
    }
  }

  /** A value is picked exactly when some visited key of that kind maps to it. */
  lemma {:induction false} PickedMembers(files: map<string, string>, keys: seq<string>, kind: ChunkKind, v: string)
    requires KeysIn(files, keys)
    ensures v in Picked(files, keys, kind) <==>
      exists i :: 0 <= i < |keys| && KindOf(keys[i]) == kind && files[keys[i]] == v
    decreases |keys|
  {
    if |keys| > 0 {
      PickedMembers(files, keys[1..], kind, v);
      if v in Picked(files, keys[1..], kind) {
        var j :| 0 <= j < |keys[1..]| && KindOf(keys[1..][j]) == kind && files[keys[1..][j]] == v;
        assert keys[j + 1] == keys[1..][j];
      }
      forall i | 0 < i < |keys| && KindOf(keys[i]) == kind && files[keys[i]] == v
        ensures v in Picked(files, keys[1..], kind)
      {
        assert keys[1..][i - 1] == keys[i];
      }
    }
  }

  /** Over a walk without repetitions, one value is picked per key of the kind. */
  lemma {:induction false} PickedCount(files: map<string, string>, keys: seq<string>, kind: ChunkKind)
    requires KeysIn(files, keys)
    requires Distinct(keys)
    ensures |Picked(files, keys, kind)| == |KeysOfKind(keys, kind)|
    decreases |keys|
  {
    if |keys| == 0 {
      assert KeysOfKind(keys, kind) == {};
    } else {
      DistinctTail(keys);
      PickedCount(files, keys[1..], kind);
      KeysOfKindTail(keys, kind);
    }
  }

  lemma DistinctTail(keys: seq<string>)
    requires Distinct(keys) && |keys| > 0
    ensures Distinct(keys[1..])
    ensures keys[0] !in keys[1..]
  {
    forall i, j | 0 <= i < j < |keys[1..]| ensures keys[1..][i] != keys[1..][j] {
      assert keys[1..][i] == keys[i + 1] && keys[1..][j] == keys[j + 1];
    }
    forall j | 0 <= j < |keys[1..]| ensures keys[1..][j] != keys[0] {
      assert keys[1..][j] == keys[j + 1];
    }
  }

  lemma KeysOfKindTail(keys: seq<string>, kind: ChunkKind)
    requires |keys| > 0 && keys[0] !in keys[1..]
    ensures KeysOfKind(keys, kind) == (if KindOf(keys[0]) == kind then {keys[0]} else {}) + KeysOfKind(keys[1..], kind)
    ensures keys[0] !in KeysOfKind(keys[1..], kind)
  {
    assert keys == [keys[0]] + keys[1..];
  }

  /** The distinct keys of a walk that are chunk names of one kind. */
  function KeysOfKind(keys: seq<string>, kind: ChunkKind): set<string> {
    set k | k in keys && KindOf(k) == kind
  }

  /** Reordering the walk only reorders what is picked. */
  lemma {:induction false} PickedPermutation(files: map<string, string>, a: seq<string>, b: seq<string>, kind: ChunkKind)
    requires KeysIn(files, a) && KeysIn(files, b)
    requires multiset(a) == multiset(b)
    ensures multiset(Picked(files, a, kind)) == multiset(Picked(files, b, kind))
    decreases |a|
  {
    if |a| == 0 {
      assert |b| == |multiset(b)| == 0;
    } else {
      var k := a[0];
      assert k in multiset(b) by {
        assert k in multiset(a);
      }
      var j :| 0 <= j < |b| && b[j] == k;
      var b' := b[..j] + b[j + 1..];
      PickedUncons(files, a, kind);
      PickedRemoveAt(files, b, j, kind);
      DropMatched(a, b, j);
      PickedPermutation(files, a[1..], b', kind);
    }
  }

  /** The head of a walk contributes before the rest of it. */
  lemma PickedUncons(files: map<string, string>, s: seq<string>, kind: ChunkKind)
    requires KeysIn(files, s) && |s| > 0
    ensures KeysIn(files, s[1..])
    ensures multiset(Picked(files, s, kind)) == multiset(Picked(files, [s[0]], kind)) + multiset(Picked(files, s[1..], kind))
  {
    assert [s[0]][1..] == [];
  }

  /** Taking matching elements out of two permutations leaves permutations. */
  lemma DropMatched(a: seq<string>, b: seq<string>, j: nat)
    requires multiset(a) == multiset(b)
    requires |a| > 0 && j < |b| && b[j] == a[0]
    ensures multiset(a[1..]) == multiset(b[..j] + b[j + 1..])
  {
    assert a == [a[0]] + a[1..];
    assert multiset(a) == multiset([a[0]]) + multiset(a[1..]);
    assert b == b[..j] + [b[j]] + b[j + 1..];
    assert multiset(b) == multiset(b[..j]) + multiset([b[j]]) + multiset(b[j + 1..]);
    assert multiset(b[..j] + b[j + 1..]) == multiset(b[..j]) + multiset(b[j + 1..]);
    assert [a[0]] == [b[j]];
    forall x ensures multiset(a[1..])[x] == multiset(b[..j] + b[j + 1..])[x] {
      assert multiset(a)[x] == multiset([a[0]])[x] + multiset(a[1..])[x];
      assert multiset(b)[x] == multiset(b[..j])[x] + multiset([b[j]])[x] + multiset(b[j + 1..])[x];
    }
  }

  /** Taking one key out of the walk takes its picked value (if any) out. */
  lemma PickedRemoveAt(files: map<string, string>, s: seq<string>, j: nat, kind: ChunkKind)
    requires KeysIn(files, s) && j < |s|
    ensures KeysIn(files, s[..j] + s[j + 1..])
    ensures multiset(Picked(files, s, kind))
         == multiset(Picked(files, [s[j]], kind)) + multiset(Picked(files, s[..j] + s[j + 1..], kind))
  {
    assert s == s[..j] + [s[j]] + s[j + 1..];
    PickedConcat(files, s[..j], s[j + 1..], kind);
    PickedConcat(files, s[..j], [s[j]], kind);
    PickedConcat(files, s[..j] + [s[j]], s[j + 1..], kind);
  }

  lemma {:induction false} DistinctMultiset(keys: seq<string>, x: string)
    requires Distinct(keys)
    ensures multiset(keys)[x] == if x in keys then 1 else 0
    decreases |keys|
  {
    if |keys| > 0 {
      DistinctTail(keys);
      DistinctMultiset(keys[1..], x);
      assert keys == [keys[0]] + keys[1..];
    }
  }

  /** Two walks of the same map visit the same keys, each once. */
  lemma KeyOrdersPermute(files: map<string, string>, a: seq<string>, b: seq<string>)
    requires IsKeyOrder(files, a) && IsKeyOrder(files, b)
    ensures multiset(a) == multiset(b)
  {
    forall x ensures multiset(a)[x] == multiset(b)[x] {
      DistinctMultiset(a, x);
      DistinctMultiset(b, x);
    }
  }

  // ---------------------------------------------------------------------------
  // Properties of processAssetsURLs, for every walk order

  /** The runtime script, when the manifest has one, comes first. */
  lemma RuntimeFirst(files: map<string, string>, order: seq<string>)
    requires IsKeyOrder(files, order)
    ensures var r := ProcessAssetsURLs(files, order);
      RuntimeJSKey in files ==> |r.js| > 0 && r.js[0] == files[RuntimeJSKey]
  {
  }

  /** `main.js` comes last among the scripts and `main.css` last among the
      style sheets, when the manifest has them. */
  lemma MainLast(files: map<string, string>, order: seq<string>)
    requires IsKeyOrder(files, order)
    ensures var r := ProcessAssetsURLs(files, order);
      MainJSKey in files ==> |r.js| > 0 && r.js[|r.js| - 1] == files[MainJSKey]
    ensures var r := ProcessAssetsURLs(files, order);
      MainCSSKey in files ==> |r.css| > 0 && r.css[|r.css| - 1] == files[MainCSSKey]
  {
  }

  /** The script list holds exactly the values of the runtime key, the script
      chunk keys and `main.js`; the style list exactly those of the style chunk
      keys and `main.css`. */
  lemma ListMembers(files: map<string, string>, order: seq<string>, v: string)
    requires IsKeyOrder(files, order)
    ensures v in ProcessAssetsURLs(files, order).js <==>
      exists k :: k in files && InJS(k) && files[k] == v
    ensures v in ProcessAssetsURLs(files, order).css <==>
      exists k :: k in files && InCSS(k) && files[k] == v
  {
    JSMembers(files, order, v);
    CSSMembers(files, order, v);
  }

  lemma JSMembers(files: map<string, string>, order: seq<string>, v: string)
    requires IsKeyOrder(files, order)
    ensures v in ProcessAssetsURLs(files, order).js <==>
      exists k :: k in files && InJS(k) && files[k] == v
  {
    ClassesDisjoint("");
    PickedMembers(files, order, JSChunk, v);
    if exists k :: k in files && InJS(k) && files[k] == v {
      var k :| k in files && InJS(k) && files[k] == v;
      if KindOf(k) == JSChunk {
        var i :| 0 <= i < |order| && order[i] == k;
      }
    }
  }

  lemma CSSMembers(files: map<string, string>, order: seq<string>, v: string)
    requires IsKeyOrder(files, order)
    ensures v in ProcessAssetsURLs(files, order).css <==>
      exists k :: k in files && InCSS(k) && files[k] == v
  {
    ClassesDisjoint("");
    PickedMembers(files, order, CSSChunk, v);
    if exists k :: k in files && InCSS(k) && files[k] == v {
      var k :| k in files && InCSS(k) && files[k] == v;
      if KindOf(k) == CSSChunk {
        var i :| 0 <= i < |order| && order[i] == k;
      }
    }
  }

  /** The keys that feed the script list and the style list. */
  function JSKeys(files: map<string, string>): set<string> {
    set k | k in files && InJS(k)
  }

  function CSSKeys(files: map<string, string>): set<string> {
    set k | k in files && InCSS(k)
  }

  /** One entry per feeding key: the lists are as long as their key sets, and
      the two key sets share no key. */
  lemma ListLengths(files: map<string, string>, order: seq<string>)
    requires IsKeyOrder(files, order)
    ensures |ProcessAssetsURLs(files, order).js| == |JSKeys(files)|
    ensures |ProcessAssetsURLs(files, order).css| == |CSSKeys(files)|
    ensures JSKeys(files) !! CSSKeys(files)
  {
    forall k | k in JSKeys(files) ensures k !in CSSKeys(files) {
      ClassesDisjoint(k);
    }
    JSLength(files, order);
    CSSLength(files, order);
  }

  /** The chunk keys of one kind in the map. */
  function ChunkKeys(files: map<string, string>, kind: ChunkKind): set<string> {
    set k | k in files && KindOf(k) == kind
  }

  /** A designated key as a set of at most one key. */
  function KeySlot(files: map<string, string>, key: string): set<string> {
    if key in files then {key} else {}
  }

  /** The chunk keys a walk visits are the chunk keys of the map. */
  lemma WalkedChunkKeys(files: map<string, string>, order: seq<string>, kind: ChunkKind)
    requires IsKeyOrder(files, order)
    ensures KeysOfKind(order, kind) == ChunkKeys(files, kind)
  {
  }

  lemma JSKeysSplit(files: map<string, string>)
    ensures JSKeys(files) == KeySlot(files, RuntimeJSKey) + ChunkKeys(files, JSChunk) + KeySlot(files, MainJSKey)
    ensures KeySlot(files, RuntimeJSKey) !! ChunkKeys(files, JSChunk)
    ensures (KeySlot(files, RuntimeJSKey) + ChunkKeys(files, JSChunk)) !! KeySlot(files, MainJSKey)
  {
    ClassesDisjoint("");
    var all := KeySlot(files, RuntimeJSKey) + ChunkKeys(files, JSChunk) + KeySlot(files, MainJSKey);
    assert JSKeys(files) <= all;
    assert all <= JSKeys(files);
  }

  lemma CSSKeysSplit(files: map<string, string>)
    ensures CSSKeys(files) == ChunkKeys(files, CSSChunk) + KeySlot(files, MainCSSKey)
    ensures ChunkKeys(files, CSSChunk) !! KeySlot(files, MainCSSKey)
  {
    ClassesDisjoint("");
    var all := ChunkKeys(files, CSSChunk) + KeySlot(files, MainCSSKey);
    assert CSSKeys(files) <= all;
    assert all <= CSSKeys(files);
  }

  lemma JSLength(files: map<string, string>, order: seq<string>)
    requires IsKeyOrder(files, order)
    ensures |ProcessAssetsURLs(files, order).js| == |JSKeys(files)|
  {
    assert |Picked(files, order, JSChunk)| == |ChunkKeys(files, JSChunk)| by {
      PickedCount(files, order, JSChunk);
      WalkedChunkKeys(files, order, JSChunk);
    }
    assert |JSKeys(files)| == |KeySlot(files, RuntimeJSKey)| + |ChunkKeys(files, JSChunk)| + |KeySlot(files, MainJSKey)| by {
      JSKeysSplit(files);
    }
  }

  lemma CSSLength(files: map<string, string>, order: seq<string>)
    requires IsKeyOrder(files, order)
    ensures |ProcessAssetsURLs(files, order).css| == |CSSKeys(files)|
  {
    assert |Picked(files, order, CSSChunk)| == |ChunkKeys(files, CSSChunk)| by {
      PickedCount(files, order, CSSChunk);
      WalkedChunkKeys(files, order, CSSChunk);
    }
    assert |CSSKeys(files)| == |ChunkKeys(files, CSSChunk)| + |KeySlot(files, MainCSSKey)| by {
      CSSKeysSplit(files);
    }
  }

  /** The key order changes at most the order of the chunks: both lists hold
      the same values the same number of times, whatever the order. */
  lemma OrderIndependent(files: map<string, string>, a: seq<string>, b: seq<string>)
    requires IsKeyOrder(files, a) && IsKeyOrder(files, b)
    ensures multiset(ProcessAssetsURLs(files, a).js) == multiset(ProcessAssetsURLs(files, b).js)
    ensures multiset(ProcessAssetsURLs(files, a).css) == multiset(ProcessAssetsURLs(files, b).css)
  {
    KeyOrdersPermute(files, a, b);
    PickedPermutation(files, a, b, JSChunk);
    PickedPermutation(files, a, b, CSSChunk);
  }

  /** With a single chunk key of a kind, the walk picks its value alone,
      whatever the order. */
  lemma SingleChunk(files: map<string, string>, order: seq<string>, kind: ChunkKind, c: string)
    requires IsKeyOrder(files, order)
    requires c in files && KindOf(c) == kind
    requires forall k :: k in files && KindOf(k) == kind ==> k == c
    ensures Picked(files, order, kind) == [files[c]]
  {
    assert ChunkKeys(files, kind) == {c};
    var picked := Picked(files, order, kind);
    PickedCount(files, order, kind);
    WalkedChunkKeys(files, order, kind);
    assert |picked| == 1;
    PickedMembers(files, order, kind, picked[0]);
    var i :| 0 <= i < |order| && KindOf(order[i]) == kind && files[order[i]] == picked[0];
    assert order[i] in ChunkKeys(files, kind);
  }
}
