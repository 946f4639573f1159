/** Strings and the JavaScript string built-ins the source relies on: the regex
    classes `\w`, `\d` and `\s`, ASCII `toLowerCase`, `trim`, `includes`,
    `startsWith`, `replace` with a string pattern, `split` on one character,
    `join`, and the `<` order on strings. */
module Strings {
  import opened Optionals

  type String = seq<char>

  /** The regex class `\w`. */
  predicate IsWordChar(c: char) {
    ('a' <= c <= 'z') || ('A' <= c <= 'Z') || ('0' <= c <= '9') || c == '_'
  }

  /** The regex class `\d`. */
  predicate IsDigit(c: char) {
    '0' <= c <= '9'
  }

  /** The regex class `\s`, which is also the set `trim` removes: the
      WhiteSpace and LineTerminator characters of ECMAScript. */
  predicate IsSpace(c: char) {
    || c == ' ' || c == '\t' || c == '\n' || c == '\r' || c == '\U{000B}' || c == '\U{000C}'
    || c == '\U{00A0}' || c == '\U{1680}' || ('\U{2000}' <= c <= '\U{200A}')
    || c == '\U{2028}' || c == '\U{2029}' || c == '\U{202F}' || c == '\U{205F}'
    || c == '\U{3000}' || c == '\U{FEFF}'
  }

  // ---------------------------------------------------------------------------
  // Lower-casing (ASCII letters only)
  // ---------------------------------------------------------------------------

  function LowerChar(c: char): char {
    if 'A' <= c <= 'Z' then (c as int + 32) as char else c
  }

  function ToLower(s: String): (r: String)
    ensures |r| == |s|
    ensures forall i :: 0 <= i < |s| ==> r[i] == LowerChar(s[i])
  {
    seq(|s|, i requires 0 <= i < |s| => LowerChar(s[i]))
  }

  /** Lower-casing keeps word characters word characters, so a lower-cased
      `\w+` token is still one. */
  lemma LowerKeepsWordChars(s: String)
    requires forall i :: 0 <= i < |s| ==> IsWordChar(s[i])
    ensures forall i :: 0 <= i < |s| ==> IsWordChar(ToLower(s)[i]) && !('A' <= ToLower(s)[i] <= 'Z')
  {
  }

  /** Text without upper-case letters lower-cases to itself. */
  lemma ToLowerOfLower(s: String)
    requires forall x :: x in s ==> !('A' <= x <= 'Z')
    ensures ToLower(s) == s
  {
    forall i | 0 <= i < |s| ensures ToLower(s)[i] == s[i] {
      assert s[i] in s;
    }
  }

  lemma ToLowerIdempotent(s: String)
    ensures ToLower(ToLower(s)) == ToLower(s)
  {
  }

  lemma ToLowerAppend(a: String, b: String)
    ensures ToLower(a + b) == ToLower(a) + ToLower(b)
  {
    assert forall i :: 0 <= i < |a + b| ==> ToLower(a + b)[i] == (ToLower(a) + ToLower(b))[i];
  }

  // ---------------------------------------------------------------------------
  // Occurrences: `startsWith`, `includes`, `indexOf`, `replace(string, '')`
  // ---------------------------------------------------------------------------

  predicate StartsWith(s: String, p: String) {
    |p| <= |s| && s[..|p|] == p
  }

  /** `p` occurs in `s` at index `i`. */
  predicate OccursAt(s: String, p: String, i: int) {
    0 <= i && i + |p| <= |s| && s[i..i + |p|] == p
  }

  /** `s.indexOf(p, i)` as an option: the first occurrence at or after `i`. */
  function IndexOfFrom(s: String, p: String, i: nat): (r: Option<nat>)
    requires i <= |s|
    ensures r.Some? ==> i <= r.value && OccursAt(s, p, r.value)
    ensures r.Some? ==> forall j :: i <= j < r.value ==> !OccursAt(s, p, j)
    ensures r.None? ==> forall j :: i <= j ==> !OccursAt(s, p, j)
    decreases |s| - i
  {
    if OccursAt(s, p, i) then Some(i)
    else if i == |s| then None
    else IndexOfFrom(s, p, i + 1)
  }

  /** `s.includes(p)`. */
  predicate Contains(s: String, p: String) {
    IndexOfFrom(s, p, 0).Some?
  }

  /** `s.replace(p, '')` with a string pattern: only the first occurrence goes. */
  function RemoveFirst(s: String, p: String): (r: String)
    ensures IndexOfFrom(s, p, 0).None? ==> r == s
    ensures IndexOfFrom(s, p, 0).Some? ==>
      var k := IndexOfFrom(s, p, 0).value;
      |r| == |s| - |p| && r[..k] == s[..k] && r[k..] == s[k + |p|..]
  {
    match IndexOfFrom(s, p, 0)
    case None => s
    case Some(k) => s[..k] + s[k + |p|..]
  }

  // ---------------------------------------------------------------------------
  // `trim`
  // ---------------------------------------------------------------------------

  /** Neither end of `s` is whitespace: what `trim` guarantees. */
  predicate Trimmed(s: String) {
    s == [] || (!IsSpace(s[0]) && !IsSpace(s[|s| - 1]))
  }

  predicate AllSpace(s: String) {
    forall i :: 0 <= i < |s| ==> IsSpace(s[i])
  }

  function TrimStart(s: String): (r: String)
    ensures |r| <= |s| && r == s[|s| - |r|..]
    ensures r == [] || !IsSpace(r[0])
    ensures AllSpace(s[..|s| - |r|])
  {
    if s != [] && IsSpace(s[0]) then
      var r := TrimStart(s[1..]);
      TrimStartStep(s, r);
      r
    else s
  }

  lemma TrimStartStep(s: String, r: String)
    requires s != [] && IsSpace(s[0])
    requires |r| <= |s| - 1 && r == s[1..][|s| - 1 - |r|..] && AllSpace(s[1..][..|s| - 1 - |r|])
    ensures r == s[|s| - |r|..] && AllSpace(s[..|s| - |r|])
  {
    var n := |s| - |r|;
    forall i | 0 <= i < n ensures IsSpace(s[i]) {
      if i > 0 {
        assert s[i] == s[1..][..n - 1][i - 1];
      }
    }
  }

  function TrimEnd(s: String): (r: String)
    ensures |r| <= |s| && r == s[..|r|]
    ensures r == [] || !IsSpace(r[|r| - 1])
    ensures AllSpace(s[|r|..])
  {
    if s != [] && IsSpace(s[|s| - 1]) then
      var r := TrimEnd(s[..|s| - 1]);
      TrimEndStep(s, r);
      r
    else s
  }

  lemma TrimEndStep(s: String, r: String)
    requires s != [] && IsSpace(s[|s| - 1])
    requires |r| <= |s| - 1 && r == s[..|s| - 1][..|r|] && AllSpace(s[..|s| - 1][|r|..])
    ensures r == s[..|r|] && AllSpace(s[|r|..])
  {
    forall i | |r| <= i < |s| ensures IsSpace(s[i]) {
      if i < |s| - 1 {
        assert s[i] == s[..|s| - 1][|r|..][i - |r|];
      }
    }
  }

  /** `s.trim()`: the result is `s` with its whitespace ends cut off. */
  function Trim(s: String): (r: String)
    ensures Trimmed(r)
    ensures |r| <= |s|
    ensures r == [] <==> AllSpace(s)
  {
    var t := TrimStart(s);
    var r := TrimEnd(t);
    TrimParts(s, t, r);
    r
  }

  lemma TrimParts(s: String, t: String, r: String)
    requires |t| <= |s| && t == s[|s| - |t|..] && AllSpace(s[..|s| - |t|])
    requires t == [] || !IsSpace(t[0])
    requires |r| <= |t| && r == t[..|r|] && AllSpace(t[|r|..])
    requires r == [] || !IsSpace(r[|r| - 1])
    ensures Trimmed(r) && |r| <= |s|
    ensures r == [] <==> AllSpace(s)
  {
    if r != [] {
      assert r[0] == t[0];
      assert s[|s| - |t|] == t[0];
    } else {
      assert t[|r|..] == t;
      forall i | 0 <= i < |s| ensures IsSpace(s[i]) {
        assert s[i] == s[..|s| - |t|][i];
      }
    }
  }

  /** `s.trim()` is a piece of `s`: the piece starting at `lo`. */
  lemma TrimIsSlice(s: String) returns (lo: nat, r: String)
    ensures r == Trim(s)
    ensures lo + |r| <= |s| && r == s[lo..lo + |r|]
    ensures AllSpace(s[..lo]) && AllSpace(s[lo + |r|..])
  {
    var a := TrimStart(s);
    r := TrimEnd(a);
    lo := |s| - |a|;
    SliceChain(s, a, r, lo);
    assert s[lo + |r|..] == a[|r|..];
  }

  lemma SliceChain(s: String, a: String, b: String, lo: nat)
    requires lo <= |s| && a == s[lo..] && |b| <= |a| && b == a[..|b|]
    ensures lo + |b| <= |s| && b == s[lo..lo + |b|]
  {
    SliceOfSlice(s, lo, |b|);
  }

  lemma SliceOfSlice(s: String, lo: nat, n: nat)
    requires lo + n <= |s|
    ensures s[lo..][..n] == s[lo..lo + n]
  {
  }

  lemma TrimOfTrimmed(s: String)
    requires Trimmed(s)
    ensures Trim(s) == s
  {
  }

  /** `s.trim()` is falsy: `s` holds nothing but whitespace. */
  predicate Blank(s: String)
    decreases |s|
  {
    s == [] || (IsSpace(s[0]) && Blank(s[1..]))
  }

  lemma {:induction false} BlankIsAllSpace(s: String)
    ensures Blank(s) <==> AllSpace(s)
    decreases |s|
  {
    if s != [] {
      BlankIsAllSpace(s[1..]);
      assert forall i :: 0 < i < |s| ==> s[i] == s[1..][i - 1];
    }
  }

  /** `Blank` is exactly the test `s.trim() === ''`. */
  lemma BlankIsTrimEmpty(s: String)
    ensures Blank(s) <==> Trim(s) == []
  {
    BlankIsAllSpace(s);
  }

  /** Leading whitespace in front of a trimmed word disappears under `trim`. */
  lemma TrimAfterSpace(w: String, t: String)
    requires AllSpace(w) && Trimmed(t) && t != []
    ensures Trim(w + t) == t
  {
    TrimStartSpacePrefix(w, t);
  }

  lemma {:induction false} TrimStartSpacePrefix(w: String, t: String)
    requires AllSpace(w) && (t == [] || !IsSpace(t[0]))
    ensures TrimStart(w + t) == t
    decreases |w|
  {
    if w == [] {
      assert w + t == t;
    } else {
      assert (w + t)[1..] == w[1..] + t;
      TrimStartSpacePrefix(w[1..], t);
    }
  }

  // ---------------------------------------------------------------------------
  // `split` on one character and `join`
  // ---------------------------------------------------------------------------

  /** `s.split(sep)`: the pieces between the separators, always at least one;
      no piece holds the separator, and joining them with it gives `s` back. */
  function Split(s: String, sep: char): (r: seq<String>)
    ensures |r| >= 1
    ensures forall k :: 0 <= k < |r| ==> sep !in r[k]
    ensures Join(r, [sep]) == s
    decreases |s|
  {
    if s == [] then [[]]
    else if s[0] == sep then
      var rest := Split(s[1..], sep);
      assert ([[]] + rest)[1..] == rest;
      assert s == [sep] + s[1..];
      [[]] + rest
    else
      var rest := Split(s[1..], sep);
      JoinExtendHead(s[0], rest, [sep]);
      assert s == [s[0]] + s[1..];
      [[s[0]] + rest[0]] + rest[1..]
  }

  /** Prefixing the first part prefixes the join. */
  lemma JoinExtendHead(x: char, parts: seq<String>, glue: String)
    requires parts != []
    ensures Join([[x] + parts[0]] + parts[1..], glue) == [x] + Join(parts, glue)
  {
    var q := [[x] + parts[0]] + parts[1..];
    assert q[1..] == parts[1..];
    if |parts| > 1 {
      assert Join(q, glue) == ([x] + parts[0]) + glue + Join(parts[1..], glue);
    }
  }

  /** `parts.join(glue)`. */
  function Join(parts: seq<String>, glue: String): String
    decreases |parts|
  {
    if parts == [] then []
    else if |parts| == 1 then parts[0]
    else parts[0] + glue + Join(parts[1..], glue)
  }

  lemma {:induction false} SplitNoSeparator(a: String, sep: char)
    requires sep !in a
    ensures Split(a, sep) == [a]
    decreases |a|
  {
    if a != [] {
      SplitNoSeparator(a[1..], sep);
      assert [a[0]] + a[1..] == a;
    }
  }

  /** Splitting at a separator whose left side holds none gives that side first. */
  lemma {:induction false} SplitAtFirstSeparator(a: String, sep: char, b: String)
    requires sep !in a
    ensures Split(a + [sep] + b, sep) == [a] + Split(b, sep)
    decreases |a|
  {
    if a == [] {
      assert a + [sep] + b == [sep] + b;
      assert ([sep] + b)[1..] == b;
    } else {
      var s := a + [sep] + b;
      assert s[0] == a[0];
      assert s[1..] == a[1..] + [sep] + b;
      SplitAtFirstSeparator(a[1..], sep, b);
      assert [a[0]] + a[1..] == a;
    }
  }

  /** The tag list of a comma-separated field: `split(',')`, then `trim` each
      piece, then drop the empty ones. */
  function SplitTags(s: String): (r: seq<String>)
    ensures forall i :: 0 <= i < |r| ==> r[i] != [] && Trimmed(r[i])
  {
    CleanTags(Split(s, ','))
  }

  function CleanTags(pieces: seq<String>): (r: seq<String>)
    ensures forall i :: 0 <= i < |r| ==> r[i] != [] && Trimmed(r[i])
  {
    if pieces == [] then []
    else
      var t := Trim(pieces[0]);
      var rest := CleanTags(pieces[1..]);
      if t == [] then rest
      else
        PrependTag(t, rest);
        [t] + rest
  }

  lemma PrependTag(t: String, rest: seq<String>)
    requires t != [] && Trimmed(t)
    requires forall i :: 0 <= i < |rest| ==> rest[i] != [] && Trimmed(rest[i])
    ensures forall i :: 0 <= i < |[t] + rest| ==> ([t] + rest)[i] != [] && Trimmed(([t] + rest)[i])
  {
  }

  /** A tag that survives the round trip through the editor's text field. */
  predicate WellFormedTag(t: String) {
    t != [] && Trimmed(t) && ',' !in t
  }

  /** The editors show tags as `tags.join(', ')` and save them back with
      `SplitTags`: for well-formed tags this gives back the same list. */
  lemma SplitJoinTags(tags: seq<String>)
    requires forall i :: 0 <= i < |tags| ==> WellFormedTag(tags[i])
    ensures SplitTags(Join(tags, ", ")) == tags
  {
    if tags != [] {
      SplitJoinTagsAfter([], tags);
      EmptyAppend(Join(tags, ", "));
    }
  }

  lemma JoinCons(tags: seq<String>)
    requires |tags| > 1
    ensures Join(tags, ", ") == tags[0] + [','] + (" " + Join(tags[1..], ", "))
  {
    var a := tags[0];
    var j := Join(tags[1..], ", ");
    assert Join(tags, ", ") == a + ", " + j;
    CommaSpace(a, j);
  }

  lemma CommaSpace(a: String, j: String)
    ensures a + ", " + j == a + [','] + (" " + j)
  {
    var g: String := ", ";
    assert g == [','] + " ";
    AppendAssoc(a, [','], " ");
    AppendAssoc(a + [','], " ", j);
  }

  lemma EmptyAppend(s: String)
    ensures [] + s == s
  {
  }

  lemma AppendAssoc(a: String, b: String, c: String)
    ensures a + b + c == a + (b + c)
  {
  }

  lemma {:induction false} SplitJoinTagsAfter(w: String, tags: seq<String>)
    requires AllSpace(w) && ',' !in w
    requires tags != []
    requires forall i :: 0 <= i < |tags| ==> WellFormedTag(tags[i])
    ensures CleanTags(Split(w + Join(tags, ", "), ',')) == tags
    decreases |tags|
  {
    if |tags| == 1 {
      SplitJoinOneTag(w, tags[0]);
      assert tags == [tags[0]];
    } else {
      BlankIsSpace();
      SplitJoinTagsAfter(" ", tags[1..]);
      SplitJoinStep(w, tags);
    }
  }

  lemma BlankIsSpace()
    ensures AllSpace(" ") && ',' !in " "
  {
  }

  /** One step of the round trip: the first tag, then the rest after ", ". */
  lemma SplitJoinStep(w: String, tags: seq<String>)
    requires AllSpace(w) && ',' !in w
    requires |tags| > 1
    requires forall i :: 0 <= i < |tags| ==> WellFormedTag(tags[i])
    requires CleanTags(Split(" " + Join(tags[1..], ", "), ',')) == tags[1..]
    ensures CleanTags(Split(w + Join(tags, ", "), ',')) == tags
  {
    var t := tags[0];
    assert WellFormedTag(t);
    JoinCons(tags);
    SplitJoinFirstTag(w, t, Join(tags[1..], ", "));
    HeadTail(tags);
  }

  lemma HeadTail(tags: seq<String>)
    requires tags != []
    ensures [tags[0]] + tags[1..] == tags
  {
  }

  lemma SplitJoinOneTag(w: String, t: String)
    requires AllSpace(w) && ',' !in w && WellFormedTag(t)
    ensures CleanTags(Split(w + t, ',')) == [t]
  {
    var s := w + t;
    NoCommaInConcat(w, t);
    SplitNoSeparator(s, ',');
    TrimAfterSpace(w, t);
    CleanSinglePiece(s);
  }

  lemma NoCommaInConcat(w: String, t: String)
    requires ',' !in w && ',' !in t
    ensures ',' !in w + t
  {
  }

  lemma CleanSinglePiece(p: String)
    requires Trim(p) != []
    ensures CleanTags([p]) == [Trim(p)]
  {
    assert [p][1..] == [];
  }

  lemma SplitJoinFirstTag(w: String, t: String, rest: String)
    requires AllSpace(w) && ',' !in w && WellFormedTag(t)
    ensures CleanTags(Split(w + (t + [','] + (" " + rest)), ','))
         == [t] + CleanTags(Split(" " + rest, ','))
  {
    var s := w + t;
    NoCommaInConcat(w, t);
    TrimAfterSpace(w, t);
    AppendAssoc(w, t + [','], " " + rest);
    AppendAssoc(w, t, [',']);
    SplitAtFirstSeparator(s, ',', " " + rest);
    CleanOnePiece(s, Split(" " + rest, ','));
  }

  /** A first piece that trims to a non-empty tag contributes that tag. */
  lemma CleanOnePiece(p: String, rest: seq<String>)
    requires Trim(p) != []
    ensures CleanTags([p] + rest) == [Trim(p)] + CleanTags(rest)
  {
    var pieces := [p] + rest;
    assert pieces[0] == p && pieces[1..] == rest;
  }

  // ---------------------------------------------------------------------------
  // The `<` order on strings (code-unit lexicographic)
  // ---------------------------------------------------------------------------

  /** `a <= b` for JavaScript strings. */
  predicate LexLe(a: String, b: String)
    decreases |a|
  {
    a == [] || (b != [] && (a[0] < b[0] || (a[0] == b[0] && LexLe(a[1..], b[1..]))))
  }

  lemma {:induction false} LexLeTotal(a: String, b: String)
    ensures LexLe(a, b) || LexLe(b, a)
    decreases |a|
  {
    if a != [] && b != [] && a[0] == b[0] {
      LexLeTotal(a[1..], b[1..]);
    }
  }

  lemma {:induction false} LexLeTransitive(a: String, b: String, c: String)
    requires LexLe(a, b) && LexLe(b, c)
    ensures LexLe(a, c)
    decreases |a|
  {
    if a != [] && b != [] && c != [] && a[0] == b[0] && b[0] == c[0] {
      LexLeTransitive(a[1..], b[1..], c[1..]);
    }
  }

  // ---------------------------------------------------------------------------
  // Digits
  // ---------------------------------------------------------------------------

  predicate AllDigits(s: String) {
    forall i :: 0 <= i < |s| ==> IsDigit(s[i])
  }

  /** `parseInt` of a string of decimal digits. */
  function DigitsValue(s: String): nat
    requires AllDigits(s)
    decreases |s|
  {
    if s == [] then 0 else DigitsValue(s[..|s| - 1]) * 10 + (s[|s| - 1] as int - '0' as int)
  }

  function DigitChar(d: nat): char
    requires d < 10
  {
    ('0' as int + d) as char
  }
}
