/** The regular expressions of the quick-capture parser, each re-expressed as
    a matcher at one position of the subject string, and the three ways the
    source applies them: `match` without the `g` flag and `test` (leftmost
    match), `match` with `g` (all matches, left to right, never overlapping)
    and `replace` with `g` (delete all those matches). Case-insensitive
    matching folds ASCII letters only, which is exact for these all-ASCII
    patterns. */
module TextPatterns {
  import opened Optionals
  import opened Strings

  /** `\b` between positions `k - 1` and `k` of `s`. */
  predicate Boundary(s: String, k: int)
    requires 0 <= k <= |s|
  {
    (k > 0 && IsWordChar(s[k - 1])) != (k < |s| && IsWordChar(s[k]))
  }

  /** The length of the `\w+`-run at the start of `t` (0 when there is none). */
  function WordRun(t: String): (n: nat)
    ensures n <= |t|
    ensures forall j :: 0 <= j < n ==> IsWordChar(t[j])
    ensures n < |t| ==> !IsWordChar(t[n])
  {
    if t != [] && IsWordChar(t[0]) then 1 + WordRun(t[1..]) else 0
  }

  /** The length of the `\s+`-run at the start of `t` (0 when there is none). */
  function SpaceRun(t: String): (n: nat)
    ensures n <= |t|
    ensures forall j :: 0 <= j < n ==> IsSpace(t[j])
    ensures n < |t| ==> !IsSpace(t[n])
  {
    if t != [] && IsSpace(t[0]) then 1 + SpaceRun(t[1..]) else 0
  }

  /** `t` starts with the lower-case word `w`, ignoring ASCII case. */
  predicate StartsIgnoringCase(t: String, w: String)
    ensures StartsIgnoringCase(t, w) ==> |w| <= |t|
  {
    w == [] || (t != [] && LowerChar(t[0]) == w[0] && StartsIgnoringCase(t[1..], w[1..]))
  }

  lemma {:induction false} StartsIgnoringCaseAt(t: String, w: String, k: nat)
    requires StartsIgnoringCase(t, w) && k < |w|
    ensures LowerChar(t[k]) == w[k]
  {
    if k > 0 {
      StartsIgnoringCaseAt(t[1..], w[1..], k - 1);
    }
  }

  lemma {:induction false} StartsIgnoringCaseOfChars(t: String, w: String)
    requires |w| <= |t| && forall k :: 0 <= k < |w| ==> LowerChar(t[k]) == w[k]
    ensures StartsIgnoringCase(t, w)
  {
    if w != [] {
      forall k | 0 <= k < |w| - 1 ensures LowerChar(t[1..][k]) == w[1..][k] {
        assert t[1..][k] == t[k + 1];
      }
      StartsIgnoringCaseOfChars(t[1..], w[1..]);
    }
  }

  /** The prefix a case-blind match covers lower-cases to the word. */
  lemma StartsIgnoringCaseLower(t: String, w: String)
    requires StartsIgnoringCase(t, w)
    ensures ToLower(t[..|w|]) == w
  {
    forall k | 0 <= k < |w| ensures ToLower(t[..|w|])[k] == w[k] {
      StartsIgnoringCaseAt(t, w, k);
    }
  }

  datatype Pattern =
    | Sigil(sigil: char)     // `#\w+` or `@\w+`
    | PriorityToken          // `!(high|medium|low)` ignoring case
    | Whole(word: String)    // `\bword\b` ignoring case, for a lower-case word
    | NextWeek               // `\bnext\s+week\b` ignoring case

  /** The length of a `#\w+`-style match at the start of `t`, or 0. */
  function SigilLen(c: char, t: String): (n: nat)
    ensures n <= |t|
  {
    if t != [] && t[0] == c && WordRun(t[1..]) > 0 then 1 + WordRun(t[1..]) else 0
  }

  /** The length of a `!(high|medium|low)` match at the start of `t`, or 0;
      the alternatives are tried in that order. */
  function PriorityLen(t: String): (n: nat)
    ensures n <= |t|
  {
    if t == [] || t[0] != '!' then 0
    else if StartsIgnoringCase(t[1..], "high") then 5
    else if StartsIgnoringCase(t[1..], "medium") then 7
    else if StartsIgnoringCase(t[1..], "low") then 4
    else 0
  }

  /** The length of a `\bword\b` match at position `i` of `s`, or 0. */
  function WholeLen(w: String, s: String, i: nat): (n: nat)
    requires i <= |s|
    ensures n <= |s| - i
  {
    if Boundary(s, i) && StartsIgnoringCase(s[i..], w) && Boundary(s, i + |w|) then |w| else 0
  }

  /** The length of a `\bnext\s+week\b` match at position `i` of `s`, or 0. */
  function NextWeekLen(s: String, i: nat): (n: nat)
    requires i <= |s|
    ensures n <= |s| - i
  {
    if Boundary(s, i) && StartsIgnoringCase(s[i..], "next") then
      var k := SpaceRun(s[i + 4..]);
      if k > 0 && StartsIgnoringCase(s[i + 4 + k..], "week") && Boundary(s, i + 8 + k) then 8 + k else 0
    else 0
  }

  // ---------------------------------------------------------------------------
  // Scanning. The three ways the source applies a pattern only ever look at
  // the length of the match that starts at each position, so they are defined
  // on that table of lengths, `lens`, with 0 where no match starts.
  // ---------------------------------------------------------------------------

  /** No match runs past the end of the subject. */
  predicate Fits(lens: seq<nat>) {
    forall j :: 0 <= j < |lens| ==> lens[j] <= |lens| - j
  }

  /** The table of match lengths of `p` over `s`: the length of the match
      that starts at each position, or 0 (none of the patterns matches the
      empty string). Greedy quantifiers need no backtracking here: `\w+`
      and `\s+` are only ever followed by a character they cannot consume. */
  function MatchLens(p: Pattern, s: String): (r: seq<nat>)
    ensures |r| == |s| && Fits(r)
  {
    match p
    case Sigil(c) => seq(|s|, j requires 0 <= j < |s| => SigilLen(c, s[j..]))
    case PriorityToken => seq(|s|, j requires 0 <= j < |s| => PriorityLen(s[j..]))
    case Whole(w) => seq(|s|, j requires 0 <= j < |s| => WholeLen(w, s, j))
    case NextWeek => seq(|s|, j requires 0 <= j < |s| => NextWeekLen(s, j))
  }

  /** A match of `p` starts at `i`. */
  predicate MatchesAt(p: Pattern, s: String, i: nat)
    requires i < |s|
  {
    MatchLens(p, s)[i] > 0
  }

  /** The leftmost match start at or after `i`. */
  function FirstIn(lens: seq<nat>, i: nat): (r: Option<nat>)
    requires i <= |lens|
    ensures r.Some? ==> i <= r.value < |lens| && lens[r.value] > 0
    ensures r.Some? ==> forall j :: i <= j < r.value ==> lens[j] == 0
    ensures r.None? ==> forall j :: i <= j < |lens| ==> lens[j] == 0
    decreases |lens| - i
  {
    if i == |lens| then None
    else if lens[i] > 0 then Some(i)
    else FirstIn(lens, i + 1)
  }

  /** The match starts the `g` flag reports from position `i` on: the
      search resumes at the end of each match. */
  function StartsIn(lens: seq<nat>, i: nat): (r: seq<nat>)
    requires i <= |lens| && Fits(lens)
    ensures forall k :: 0 <= k < |r| ==> i <= r[k] < |lens| && lens[r[k]] > 0
    decreases |lens| - i
  {
    if i == |lens| then []
    else if lens[i] > 0 then [i] + StartsIn(lens, i + lens[i])
    else StartsIn(lens, i + 1)
  }

  /** Each match in `r` ends before the next one starts. */
  predicate Separated(lens: seq<nat>, r: seq<nat>)
    requires forall k :: 0 <= k < |r| ==> r[k] < |lens|
  {
    forall j, k :: 0 <= j < k < |r| ==> r[j] + lens[r[j]] <= r[k]
  }

  /** The matches the `g` scan reports never overlap. */
  lemma {:induction false} StartsInSeparated(lens: seq<nat>, i: nat)
    requires i <= |lens| && Fits(lens)
    ensures Separated(lens, StartsIn(lens, i))
    decreases |lens| - i
  {
    if i < |lens| {
      if lens[i] > 0 {
        var n := i + lens[i];
        StartsInSeparated(lens, n);
        SeparatedCons(lens, i, StartsIn(lens, n));
      } else {
        StartsInSeparated(lens, i + 1);
      }
    }
  }

  lemma SeparatedCons(lens: seq<nat>, i: nat, rest: seq<nat>)
    requires i < |lens| && forall k :: 0 <= k < |rest| ==> i + lens[i] <= rest[k] < |lens|
    requires Separated(lens, rest)
    ensures Separated(lens, [i] + rest)
  {
    var r := [i] + rest;
    forall j, k | 0 <= j < k < |r| ensures r[j] + lens[r[j]] <= r[k] {
      assert r[k] == rest[k - 1];
      if j > 0 {
        assert r[j] == rest[j - 1];
      }
    }
  }

  /** The `g` scan finds a match exactly when the leftmost-match scan does,
      and its first match is that one. */
  lemma {:induction false} StartsInFirst(lens: seq<nat>, i: nat)
    requires i <= |lens| && Fits(lens)
    ensures var r := StartsIn(lens, i);
      && (r == [] <==> FirstIn(lens, i).None?)
      && (r != [] ==> r[0] == FirstIn(lens, i).value)
    decreases |lens| - i
  {
    if i < |lens| && lens[i] == 0 {
      StartsInFirst(lens, i + 1);
    }
  }

  /** `s` from position `i` on, with every match the scan meets deleted. */
  function RemoveIn(lens: seq<nat>, s: String, i: nat): (r: String)
    requires |lens| == |s| && Fits(lens) && i <= |s|
    ensures |r| <= |s| - i
    decreases |s| - i
  {
    if i == |s| then []
    else if lens[i] > 0 then RemoveIn(lens, s, i + lens[i])
    else [s[i]] + RemoveIn(lens, s, i + 1)
  }

  /** The number of characters the matches at `starts` cover. */
  function Covered(lens: seq<nat>, starts: seq<nat>): nat
    requires forall k :: 0 <= k < |starts| ==> starts[k] < |lens|
  {
    if starts == [] then 0 else lens[starts[0]] + Covered(lens, starts[1..])
  }

  /** Deleting the matches removes exactly the characters of the matches
      the `g` flag reports, and nothing else. */
  lemma {:induction false} RemoveInConserves(lens: seq<nat>, s: String, i: nat)
    requires |lens| == |s| && Fits(lens) && i <= |s|
    ensures Conserves(lens, s, i)
    decreases |s| - i, 1
  {
    if i < |s| {
      if lens[i] > 0 {
        ConservesOverMatch(lens, s, i);
      } else {
        ConservesOverChar(lens, s, i);
      }
    }
  }

  predicate Conserves(lens: seq<nat>, s: String, i: nat)
    requires |lens| == |s| && Fits(lens) && i <= |s|
  {
    |RemoveIn(lens, s, i)| + Covered(lens, StartsIn(lens, i)) == |s| - i
  }

  lemma {:induction false} ConservesOverMatch(lens: seq<nat>, s: String, i: nat)
    requires |lens| == |s| && Fits(lens) && i < |s| && lens[i] > 0
    ensures Conserves(lens, s, i)
    decreases |s| - i, 0
  {
    var n := i + lens[i];
    RemoveInConserves(lens, s, n);
    var rest := StartsIn(lens, n);
    assert |RemoveIn(lens, s, n)| + Covered(lens, rest) == |s| - n;
    CoveredCons(lens, i, rest);
    assert StartsIn(lens, i) == [i] + rest;
  }

  lemma CoveredCons(lens: seq<nat>, i: nat, rest: seq<nat>)
    requires i < |lens| && forall k :: 0 <= k < |rest| ==> rest[k] < |lens|
    ensures Covered(lens, [i] + rest) == lens[i] + Covered(lens, rest)
  {
    assert ([i] + rest)[1..] == rest;
  }

  lemma {:induction false} ConservesOverChar(lens: seq<nat>, s: String, i: nat)
    requires |lens| == |s| && Fits(lens) && i < |s| && lens[i] == 0
    ensures Conserves(lens, s, i)
    decreases |s| - i, 0
  {
    RemoveInConserves(lens, s, i + 1);
    assert StartsIn(lens, i) == StartsIn(lens, i + 1);
    assert RemoveIn(lens, s, i) == [s[i]] + RemoveIn(lens, s, i + 1);
  }

  /** Where no match starts, deleting the matches changes nothing. */
  lemma {:induction false} RemoveInNoMatch(lens: seq<nat>, s: String, i: nat)
    requires |lens| == |s| && Fits(lens) && i <= |s|
    requires FirstIn(lens, i).None?
    ensures RemoveIn(lens, s, i) == s[i..]
    decreases |s| - i
  {
    if i < |s| {
      RemoveInNoMatch(lens, s, i + 1);
      assert s[i..] == [s[i]] + s[i + 1..];
    }
  }

  // ---------------------------------------------------------------------------
  // The scans of a pattern: `s.match(p)` without `g` and `p.test(s)` find the
  // leftmost match; `s.match(p)` with `g` finds all of them, left to right,
  // never overlapping; `s.replace(p, '')` with `g` deletes those.
  // ---------------------------------------------------------------------------

  /** The start of the leftmost match of `p` in `s`. */
  function First(p: Pattern, s: String): (r: Option<nat>)
    ensures r.Some? ==> r.value < |s| && MatchesAt(p, s, r.value)
    ensures r.Some? ==> forall j :: 0 <= j < r.value ==> !MatchesAt(p, s, j)
    ensures r.None? ==> NoMatch(p, s)
  {
    FirstIn(MatchLens(p, s), 0)
  }

  /** No match of `p` starts anywhere in `r` (none matches the empty
      string, so the end of `r` need not be tried). */
  predicate NoMatch(p: Pattern, r: String) {
    forall j :: 0 <= j < |r| ==> !MatchesAt(p, r, j)
  }

  /** `p.test(s)`. */
  predicate Test(p: Pattern, s: String) {
    First(p, s).Some?
  }

  /** The starts of the matches `s.match(p)` reports with the `g` flag. */
  function Starts(p: Pattern, s: String): (r: seq<nat>)
    ensures forall k :: 0 <= k < |r| ==> r[k] < |s| && MatchesAt(p, s, r[k])
    ensures Separated(MatchLens(p, s), r)
    ensures r == [] <==> !Test(p, s)
    ensures r != [] ==> r[0] == First(p, s).value
  {
    var lens := MatchLens(p, s);
    StartsInSeparated(lens, 0);
    StartsInFirst(lens, 0);
    StartsIn(lens, 0)
  }

  /** `s.replace(p, '')` with the `g` flag. */
  function RemoveAll(p: Pattern, s: String): String {
    RemoveIn(MatchLens(p, s), s, 0)
  }

  /** The deletion shortens `s` by exactly the lengths of the matches `g`
      reports. */
  lemma RemoveAllConserves(p: Pattern, s: String)
    ensures |RemoveAll(p, s)| + Covered(MatchLens(p, s), Starts(p, s)) == |s|
  {
    RemoveInConserves(MatchLens(p, s), s, 0);
    assert Conserves(MatchLens(p, s), s, 0);
  }

  /** Without a match, the deletion is the identity. */
  lemma RemoveAllNoMatch(p: Pattern, s: String)
    requires !Test(p, s)
    ensures RemoveAll(p, s) == s
  {
    RemoveInNoMatch(MatchLens(p, s), s, 0);
  }

  // ---------------------------------------------------------------------------
  // `#\w+` and `@\w+`
  // ---------------------------------------------------------------------------

  // ---------------------------------------------------------------------------
  // What the `g` deletion keeps
  // ---------------------------------------------------------------------------

  /** The text of `s` from `from` on outside the matches that start at
      `starts`: the pieces between one match and the next, joined. */
  function Between(s: String, lens: seq<nat>, starts: seq<nat>, from: nat): String
    requires |lens| == |s| && Fits(lens) && from <= |s|
    requires forall k :: 0 <= k < |starts| ==> from <= starts[k] < |s|
    requires Separated(lens, starts)
    decreases |starts|
  {
    if starts == [] then s[from..]
    else
      var next := starts[0] + lens[starts[0]];
      assert forall k :: 0 <= k < |starts| - 1 ==> next <= starts[1..][k];
      s[from..starts[0]] + Between(s, lens, starts[1..], next)
  }

  /** The characters of `s` outside every match of `p` that `match` with the
      `g` flag reports, in order. */
  function Outside(p: Pattern, s: String): String {
    Between(s, MatchLens(p, s), Starts(p, s), 0)
  }

  /** `replace` with the `g` flag keeps exactly the text between the
      reported matches. */
  lemma RemoveAllIsOutside(p: Pattern, s: String)
    ensures RemoveAll(p, s) == Outside(p, s)
  {
    RemoveInIsBetween(MatchLens(p, s), s, 0);
  }

  lemma {:induction false} RemoveInIsBetween(lens: seq<nat>, s: String, i: nat)
    requires |lens| == |s| && Fits(lens) && i <= |s|
    ensures Separated(lens, StartsIn(lens, i))
      && RemoveIn(lens, s, i) == Between(s, lens, StartsIn(lens, i), i)
    decreases |s| - i
  {
    StartsInSeparated(lens, i);
    if i < |s| {
      if lens[i] > 0 {
        var n := i + lens[i];
        RemoveInIsBetween(lens, s, n);
        var rest := StartsIn(lens, n);
        assert StartsIn(lens, i) == [i] + rest;
        assert ([i] + rest)[1..] == rest;
      } else {
        RemoveInIsBetween(lens, s, i + 1);
        BetweenStep(s, lens, StartsIn(lens, i + 1), i);
      }
    }
  }

  lemma BetweenStep(s: String, lens: seq<nat>, starts: seq<nat>, i: nat)
    requires |lens| == |s| && Fits(lens) && i < |s|
    requires forall k :: 0 <= k < |starts| ==> i + 1 <= starts[k] < |s|
    requires Separated(lens, starts)
    ensures Between(s, lens, starts, i) == [s[i]] + Between(s, lens, starts, i + 1)
  {
    if starts == [] {
      assert s[i..] == [s[i]] + s[i + 1..];
    } else {
      var tail := Between(s, lens, starts[1..], starts[0] + lens[starts[0]]);
      assert Between(s, lens, starts, i) == s[i..starts[0]] + tail;
      assert Between(s, lens, starts, i + 1) == s[i + 1..starts[0]] + tail;
      assert s[i..starts[0]] == [s[i]] + s[i + 1..starts[0]];
    }
  }

  /** A stretch without match starts is kept as it is. */
  lemma {:induction false} RemoveInPlain(lens: seq<nat>, s: String, i: nat, j: nat)
    requires |lens| == |s| && Fits(lens) && i <= j <= |s|
    requires forall k :: i <= k < j ==> lens[k] == 0
    ensures RemoveIn(lens, s, i) == s[i..j] + RemoveIn(lens, s, j)
    decreases j - i
  {
    if i < j {
      RemoveInPlain(lens, s, i + 1, j);
      var rest := RemoveIn(lens, s, j);
      assert RemoveIn(lens, s, i) == [s[i]] + RemoveIn(lens, s, i + 1);
      assert s[i..j] == [s[i]] + s[i + 1..j];
      assert [s[i]] + (s[i + 1..j] + rest) == ([s[i]] + s[i + 1..j]) + rest;
    }
  }

  // ---------------------------------------------------------------------------
  // Deleting a whole word leaves none behind
  // ---------------------------------------------------------------------------

  /** A non-empty lower-case word, as every `\bword\b` keyword of the parser. */
  predicate LowerWord(w: String) {
    w != [] && forall k :: 0 <= k < |w| ==> 'a' <= w[k] <= 'z'
  }

  /** Position `i` is not inside a run of word characters. */
  predicate SafeCut(s: String, i: nat)
    requires i <= |s|
  {
    i == 0 || i == |s| || !IsWordChar(s[i - 1]) || !IsWordChar(s[i])
  }

  /** The conditions of a `\bword\b` match at `j`, spelled out. */
  predicate SpellsWholeAt(w: String, s: String, j: nat)
    requires j < |s|
  {
    Boundary(s, j) && StartsIgnoringCase(s[j..], w) && Boundary(s, j + |w|)
  }

  /** No `\bword\b` match anywhere in `s`, spelled out. */
  predicate NoWhole(w: String, s: String) {
    forall j :: 0 <= j < |s| ==> !SpellsWholeAt(w, s, j)
  }

  /** No `\bword\b` match in `s` except possibly at its front. */
  predicate NoWholePastFront(w: String, s: String) {
    forall j :: 1 <= j < |s| ==> !SpellsWholeAt(w, s, j)
  }

  /** A whole-word match is the spelled-out conditions. */
  lemma WholeAt(w: String, s: String, j: nat)
    requires w != [] && j < |s|
    ensures MatchesAt(Whole(w), s, j) <==> SpellsWholeAt(w, s, j)
  {
    assert MatchLens(Whole(w), s)[j] == WholeLen(w, s, j);
  }

  lemma NoWholeIsNoMatch(w: String, s: String)
    requires w != []
    ensures NoWhole(w, s) <==> NoMatch(Whole(w), s)
  {
    forall j | 0 <= j < |s| ensures MatchesAt(Whole(w), s, j) <==> SpellsWholeAt(w, s, j) {
      WholeAt(w, s, j);
    }
  }

  /** Text that spells a lower-case word, ignoring case, is word characters. */
  lemma WholeMatchLetters(w: String, t: String)
    requires LowerWord(w) && StartsIgnoringCase(t, w)
    ensures forall k :: 0 <= k < |w| ==> IsWordChar(t[k])
  {
    forall k | 0 <= k < |w| ensures IsWordChar(t[k]) {
      StartsIgnoringCaseAt(t, w, k);
    }
  }

  /** Text that starts with no word character does not spell a word. */
  lemma NonWordSpellsNoWord(w: String, t: String)
    requires LowerWord(w) && t != [] && !IsWordChar(t[0])
    ensures !StartsIgnoringCase(t, w)
  {
  }

  /** Whether a text spells a word depends only on its first `|w|` characters. */
  lemma SpellsSamePrefix(w: String, a: String, b: String)
    requires StartsIgnoringCase(a, w) && |w| <= |b| && a[..|w|] == b[..|w|]
    ensures StartsIgnoringCase(b, w)
  {
    forall k | 0 <= k < |w| ensures LowerChar(b[k]) == w[k] {
      StartsIgnoringCaseAt(a, w, k);
      assert a[k] == a[..|w|][k] && b[k] == b[..|w|][k];
    }
    StartsIgnoringCaseOfChars(b, w);
  }

  /** A character in front shifts the matches behind it by one place; a
      match right after it needs it to be no word character. */
  lemma WholeShift(w: String, c: char, t: String, q: nat)
    requires LowerWord(w) && 1 <= q <= |t|
    ensures SpellsWholeAt(w, [c] + t, q) ==> (q >= 2 || !IsWordChar(c)) && SpellsWholeAt(w, t, q - 1)
  {
    var u := [c] + t;
    if SpellsWholeAt(w, u, q) {
      assert u[q..] == t[q - 1..];
      WholeMatchLetters(w, u[q..]);
      assert IsWordChar(u[q]);
    }
  }

  /** A match at the front of what remains after a cut outside any word is
      a match of the source text at the cut. */
  lemma WholeAtCutIsSourceMatch(w: String, s: String, i: nat)
    requires LowerWord(w) && i < |s| && SafeCut(s, i)
    ensures var lens := MatchLens(Whole(w), s);
      SpellsWholeAt(w, [s[i]] + RemoveIn(lens, s, i + 1), 0) ==> lens[i] > 0
  {
    var lens := MatchLens(Whole(w), s);
    var r := [s[i]] + RemoveIn(lens, s, i + 1);
    if SpellsWholeAt(w, r, 0) {
      WholeMatchLetters(w, r);
      assert IsWordChar(s[i]) by {
        assert r[0] == s[i];
      }
      var m := WordRunFrom(s, i);
      RunHoldsNoWhole(w, s, i, m);
      RemainderAfterRun(w, s, i + m);
      CutSpellsWord(w, s, lens, i, m);
      WholeAt(w, s, i);
    }
  }

  lemma CutSpellsWord(w: String, s: String, lens: seq<nat>, i: nat, m: nat)
    requires LowerWord(w) && |lens| == |s| && Fits(lens) && i < |s| && SafeCut(s, i)
    requires 1 <= m && i + m <= |s|
    requires forall k :: i <= k < i + m ==> IsWordChar(s[k])
    requires i + m == |s| || !IsWordChar(s[i + m])
    requires forall k :: i + 1 <= k < i + m ==> lens[k] == 0
    requires var v := RemoveIn(lens, s, i + m); v == [] || !IsWordChar(v[0])
    requires var r := [s[i]] + RemoveIn(lens, s, i + 1);
      StartsIgnoringCase(r, w) && Boundary(r, |w|)
    ensures Boundary(s, i) && StartsIgnoringCase(s[i..], w) && Boundary(s, i + |w|)
  {
    var v := RemoveIn(lens, s, i + m);
    RunThenRest(lens, s, i, m);
    RunSpellsWord(w, s, i, m, [s[i]] + RemoveIn(lens, s, i + 1), v);
    assert IsWordChar(s[i]);
  }

  /** Cutting at the head of a run that holds no match start keeps the run
      and then what remains after it. */
  lemma RunThenRest(lens: seq<nat>, s: String, i: nat, m: nat)
    requires |lens| == |s| && Fits(lens) && 1 <= m && i + m <= |s|
    requires forall k :: i + 1 <= k < i + m ==> lens[k] == 0
    ensures [s[i]] + RemoveIn(lens, s, i + 1) == s[i..i + m] + RemoveIn(lens, s, i + m)
  {
    var v := RemoveIn(lens, s, i + m);
    RemoveInPlain(lens, s, i + 1, i + m);
    assert [s[i]] + s[i + 1..i + m] == s[i..i + m];
    assert [s[i]] + (s[i + 1..i + m] + v) == ([s[i]] + s[i + 1..i + m]) + v;
  }

  /** The run of word characters that starts at `i`. */
  lemma WordRunFrom(s: String, i: nat) returns (m: nat)
    requires i < |s| && IsWordChar(s[i])
    ensures 1 <= m && i + m <= |s|
    ensures forall k :: i <= k < i + m ==> IsWordChar(s[k])
    ensures i + m == |s| || !IsWordChar(s[i + m])
  {
    var tail := s[i + 1..];
    m := 1 + WordRun(tail);
    forall k | i < k < i + m ensures IsWordChar(s[k]) {
      assert s[k] == tail[k - i - 1];
    }
    if i + m < |s| {
      assert s[i + m] == tail[m - 1];
    }
  }

  /** No whole word starts inside a run of word characters. */
  lemma RunHoldsNoWhole(w: String, s: String, i: nat, m: nat)
    requires w != [] && i + m <= |s|
    requires forall k :: i <= k < i + m ==> IsWordChar(s[k])
    ensures forall k :: i + 1 <= k < i + m ==> MatchLens(Whole(w), s)[k] == 0
  {
    forall k | i + 1 <= k < i + m ensures MatchLens(Whole(w), s)[k] == 0 {
      WholeAt(w, s, k);
    }
  }

  /** At the end of the text or in front of a non-word character, what the
      deletion leaves does not start with a word character. */
  lemma RemainderAfterRun(w: String, s: String, j: nat)
    requires LowerWord(w) && j <= |s| && (j == |s| || !IsWordChar(s[j]))
    ensures var v := RemoveIn(MatchLens(Whole(w), s), s, j); v == [] || !IsWordChar(v[0])
  {
    if j < |s| {
      var lens := MatchLens(Whole(w), s);
      WholeAt(w, s, j);
      NonWordSpellsNoWord(w, s[j..]);
      assert RemoveIn(lens, s, j) == [s[j]] + RemoveIn(lens, s, j + 1);
    }
  }

  /** A word spelled at the front of `r`, a maximal run of word characters
      followed by `v`, is spelled by that run. */
  lemma RunSpellsWord(w: String, s: String, i: nat, m: nat, r: String, v: String)
    requires LowerWord(w) && 1 <= m && i + m <= |s|
    requires forall k :: i <= k < i + m ==> IsWordChar(s[k])
    requires i + m == |s| || !IsWordChar(s[i + m])
    requires r == s[i..i + m] + v && (v == [] || !IsWordChar(v[0]))
    requires StartsIgnoringCase(r, w) && Boundary(r, |w|)
    ensures StartsIgnoringCase(s[i..], w) && Boundary(s, i + |w|)
  {
    WholeMatchLetters(w, r);
    assert forall k :: 0 <= k < m ==> r[k] == s[i + k];
    assert |w| <= m by {
      if m < |r| {
        assert r[m] == v[0];
      }
    }
    assert |w| == m;
    forall k | 0 <= k < |w| ensures LowerChar(s[i..][k]) == w[k] {
      StartsIgnoringCaseAt(r, w, k);
    }
    StartsIgnoringCaseOfChars(s[i..], w);
  }

  /** What remains of `s` from `i` on, once every match of `w` is deleted,
      holds no match of `w`, except possibly at its front when `i` cuts a
      word. */
  lemma {:induction false} WholeRemovalFrom(w: String, s: String, i: nat)
    requires LowerWord(w) && i <= |s|
    ensures var r := RemoveIn(MatchLens(Whole(w), s), s, i);
      NoWholePastFront(w, r) && (SafeCut(s, i) && r != [] ==> !SpellsWholeAt(w, r, 0))
    decreases |s| - i
  {
    var lens := MatchLens(Whole(w), s);
    if i < |s| {
      if lens[i] > 0 {
        MatchEndIsSafeCut(w, s, i);
        WholeRemovalFrom(w, s, i + lens[i]);
      } else {
        WholeRemovalFrom(w, s, i + 1);
        WholeKeepStep(w, s, i);
      }
    }
  }

  /** A whole-word match ends where no word goes on. */
  lemma MatchEndIsSafeCut(w: String, s: String, i: nat)
    requires LowerWord(w) && i < |s| && MatchLens(Whole(w), s)[i] > 0
    ensures var n := i + MatchLens(Whole(w), s)[i]; n <= |s| && SafeCut(s, n)
  {
    var lens := MatchLens(Whole(w), s);
    WholeAt(w, s, i);
    var n := i + lens[i];
    WholeMatchLetters(w, s[i..]);
    assert IsWordChar(s[n - 1]) by {
      assert s[n - 1] == s[i..][|w| - 1];
    }
  }

  /** A character that no match starts at is kept, and keeps the remainder
      free of matches past its front. */
  lemma WholeKeepStep(w: String, s: String, i: nat)
    requires LowerWord(w) && i < |s| && MatchLens(Whole(w), s)[i] == 0
    requires var t := RemoveIn(MatchLens(Whole(w), s), s, i + 1);
      NoWholePastFront(w, t) && (SafeCut(s, i + 1) && t != [] ==> !SpellsWholeAt(w, t, 0))
    ensures var r := RemoveIn(MatchLens(Whole(w), s), s, i);
      NoWholePastFront(w, r) && (SafeCut(s, i) && r != [] ==> !SpellsWholeAt(w, r, 0))
  {
    var lens := MatchLens(Whole(w), s);
    var t := RemoveIn(lens, s, i + 1);
    assert RemoveIn(lens, s, i) == [s[i]] + t;
    assert !IsWordChar(s[i]) ==> SafeCut(s, i + 1);
    ConsKeepsNoWhole(w, s[i], t);
    if SafeCut(s, i) {
      WholeAtCutIsSourceMatch(w, s, i);
    }
  }

  /** A character in front of a text with no match after its front adds
      none, and none at its old front unless it is a word character. */
  lemma ConsKeepsNoWhole(w: String, c: char, t: String)
    requires LowerWord(w)
    requires NoWholePastFront(w, t)
    requires !IsWordChar(c) && t != [] ==> !SpellsWholeAt(w, t, 0)
    ensures NoWholePastFront(w, [c] + t)
  {
    forall q | 1 <= q < |[c] + t| ensures !SpellsWholeAt(w, [c] + t, q) {
      WholeShift(w, c, t, q);
    }
  }

  /** A piece cut out of a text at non-word neighbours keeps it free of
      whole-word matches. */
  lemma SliceKeepsNoWhole(w: String, r: String, lo: nat, hi: nat)
    requires LowerWord(w) && lo <= hi <= |r| && NoWhole(w, r)
    requires lo == 0 || !IsWordChar(r[lo - 1])
    requires hi == |r| || !IsWordChar(r[hi])
    ensures NoWhole(w, r[lo..hi])
  {
    forall q | 0 <= q < hi - lo ensures !SpellsWholeAt(w, r[lo..hi], q) {
      SliceMatchIsMatch(w, r, lo, hi, q);
    }
  }

  lemma SliceMatchIsMatch(w: String, r: String, lo: nat, hi: nat, q: nat)
    requires LowerWord(w) && lo <= hi <= |r| && q < hi - lo
    requires lo == 0 || !IsWordChar(r[lo - 1])
    requires hi == |r| || !IsWordChar(r[hi])
    ensures SpellsWholeAt(w, r[lo..hi], q) ==> SpellsWholeAt(w, r, lo + q)
  {
    var t := r[lo..hi];
    if SpellsWholeAt(w, t, q) {
      var a, b := t[q..], r[lo + q..];
      assert |w| <= |a|;
      forall k | 0 <= k < |w| ensures a[..|w|][k] == b[..|w|][k] {
        assert a[k] == t[q + k] == r[lo + q + k];
      }
      assert a[..|w|] == b[..|w|];
      SpellsSamePrefix(w, a, b);
      WholeMatchLetters(w, a);
      assert a[0] == t[q] == r[lo + q];
      assert a[|w| - 1] == t[q + |w| - 1] == r[lo + q + |w| - 1];
      if q > 0 {
        assert t[q - 1] == r[lo + q - 1];
      }
      if q + |w| < |t| {
        assert t[q + |w|] == r[lo + q + |w|];
      }
    }
  }

  /** Deleting every `\bword\b` of a lower-case word, then trimming, leaves
      no such word behind. */
  lemma WholeRemovalLeavesNone(w: String, s: String)
    requires LowerWord(w)
    ensures NoMatch(Whole(w), Trim(RemoveAll(Whole(w), s)))
  {
    var r := RemoveAll(Whole(w), s);
    RemoveAllNoWhole(w, s);
    TrimKeepsNoWhole(w, r);
    NoWholeIsNoMatch(w, Trim(r));
  }

  lemma RemoveAllNoWhole(w: String, s: String)
    requires LowerWord(w)
    ensures NoWhole(w, RemoveAll(Whole(w), s))
  {
    WholeRemovalFrom(w, s, 0);
  }

  /** Trimming cannot create a whole-word match. */
  lemma TrimKeepsNoWhole(w: String, r: String)
    requires LowerWord(w) && NoWhole(w, r)
    ensures NoWhole(w, Trim(r))
  {
    var lo, hi := TrimCutsAtNonWord(r);
    SliceKeepsNoWhole(w, r, lo, hi);
  }

  /** Trimming cuts a text next to characters that are not word characters. */
  lemma TrimCutsAtNonWord(r: String) returns (lo: nat, hi: nat)
    ensures lo <= hi <= |r| && Trim(r) == r[lo..hi]
    ensures lo == 0 || !IsWordChar(r[lo - 1])
    ensures hi == |r| || !IsWordChar(r[hi])
  {
    var t;
    lo, t := TrimIsSlice(r);
    hi := lo + |t|;
    if lo > 0 {
      SpaceRunHasNoWordChar(r[..lo], lo - 1);
      assert r[lo - 1] == r[..lo][lo - 1];
    }
    if hi < |r| {
      SpaceRunHasNoWordChar(r[hi..], 0);
      assert r[hi] == r[hi..][0];
    }
  }

  lemma SpaceRunHasNoWordChar(t: String, k: nat)
    requires AllSpace(t) && k < |t|
    ensures !IsWordChar(t[k])
  {
    assert IsSpace(t[k]);
  }

  /** One pass of the `g` flag does not delete a `next week` that the
      deletion itself creates: "next next week week" keeps "next  week". */
  lemma NextWeekRemovalIsSinglePass(s: String, r: String)
    requires s == "next next week week" && r == "next  week"
    ensures RemoveAll(NextWeek, s) == r
    ensures MatchesAt(NextWeek, r, 0)
  {
    NextWeekExampleLens(s);
    NextWeekExampleRemoval(MatchLens(NextWeek, s), s);
    NextWeekAtFront(r);
  }

  lemma NextWeekExampleRemoval(lens: seq<nat>, s: String)
    requires s == "next next week week" && |lens| == |s| && Fits(lens)
    requires lens[0] == 0 && lens[1] == 0 && lens[2] == 0 && lens[3] == 0 && lens[4] == 0 && lens[5] == 9
    requires lens[14] == 0 && lens[15] == 0 && lens[16] == 0 && lens[17] == 0 && lens[18] == 0
    ensures RemoveIn(lens, s, 0) == "next  week"
  {
    assert RemoveIn(lens, s, 17) == "ek";
    assert RemoveIn(lens, s, 16) == "eek";
    assert RemoveIn(lens, s, 15) == "week";
    assert RemoveIn(lens, s, 14) == " week";
    assert RemoveIn(lens, s, 5) == " week";
    assert RemoveIn(lens, s, 3) == "t  week";
    assert RemoveIn(lens, s, 1) == "ext  week";
  }

  lemma NextWeekExampleLens(s: String)
    requires s == "next next week week"
    ensures var lens := MatchLens(NextWeek, s);
      && lens[0] == 0 && lens[1] == 0 && lens[2] == 0 && lens[3] == 0 && lens[4] == 0 && lens[5] == 9
      && lens[14] == 0 && lens[15] == 0 && lens[16] == 0 && lens[17] == 0 && lens[18] == 0
  {
    NextWeekExampleFront(s);
    NextWeekExampleMatch(s);
    NextWeekExampleTail(s);
  }

  lemma NextWeekExampleFront(s: String)
    requires s == "next next week week"
    ensures var lens := MatchLens(NextWeek, s);
      lens[0] == 0 && lens[1] == 0 && lens[2] == 0 && lens[3] == 0 && lens[4] == 0
  {
    NextThenNoWeek(s, 0);
    NoNextAt(s, 1);
    NoNextAt(s, 2);
    NoNextAt(s, 3);
    NoNextAt(s, 4);
  }

  lemma NextWeekExampleTail(s: String)
    requires s == "next next week week"
    ensures var lens := MatchLens(NextWeek, s);
      lens[14] == 0 && lens[15] == 0 && lens[16] == 0 && lens[17] == 0 && lens[18] == 0
  {
    NoNextAt(s, 14);
    NoNextAt(s, 15);
    NoNextAt(s, 16);
    NoNextAt(s, 17);
    NoNextAt(s, 18);
  }

  lemma NextWeekExampleMatch(s: String)
    requires s == "next next week week"
    ensures MatchLens(NextWeek, s)[5] == 9
  {
    assert s[5..9] == "next";
    assert s[10] == 'w' && s[11] == 'e' && s[12] == 'e' && s[13] == 'k';
    assert s[10..14] == "week";
    NextSpaceWeekAt(s, 5);
  }

  /** "next", one space and "week" as a whole phrase at `j`. */
  lemma NextSpaceWeekAt(s: String, j: nat)
    requires j + 9 <= |s| && s[j..j + 4] == "next" && s[j + 5..j + 9] == "week"
    requires IsSpace(s[j + 4])
    requires j == 0 || !IsWordChar(s[j - 1])
    requires j + 9 == |s| || !IsWordChar(s[j + 9])
    ensures MatchLens(NextWeek, s)[j] == 9
  {
    assert s[j] == s[j..j + 4][0] && s[j + 5] == s[j + 5..j + 9][0] && s[j + 8] == s[j + 5..j + 9][3];
    SpelledAt(s, j, "next");
    SpelledAt(s, j + 5, "week");
    SingleSpace(s, j + 4);
    NextWeekLenIs(s, j, 1);
  }

  /** "next" and a single space followed by something other than "week". */
  lemma NextThenNoWeek(s: String, j: nat)
    requires j + 6 <= |s| && IsSpace(s[j + 4]) && !IsSpace(s[j + 5]) && s[j + 5] != 'w' && s[j + 5] != 'W'
    ensures MatchLens(NextWeek, s)[j] == 0
  {
    assert MatchLens(NextWeek, s)[j] == NextWeekLen(s, j);
    SingleSpace(s, j + 4);
    assert s[j + 5..][0] == s[j + 5];
  }

  /** A single space at `j`. */
  lemma SingleSpace(s: String, j: nat)
    requires j + 1 < |s| && IsSpace(s[j]) && !IsSpace(s[j + 1])
    ensures SpaceRun(s[j..]) == 1
  {
    assert s[j..][0] == s[j] && s[j..][1..] == s[j + 1..] && s[j + 1..][0] == s[j + 1];
  }

  /** A `next week` match with `k` spaces between the words. */
  lemma NextWeekLenIs(s: String, j: nat, k: nat)
    requires 0 < k && j + 8 + k <= |s|
    requires Boundary(s, j) && StartsIgnoringCase(s[j..], "next")
    requires SpaceRun(s[j + 4..]) == k
    requires StartsIgnoringCase(s[j + 4 + k..], "week") && Boundary(s, j + 8 + k)
    ensures MatchLens(NextWeek, s)[j] == 8 + k
  {
    assert MatchLens(NextWeek, s)[j] == NextWeekLen(s, j);
  }

  lemma NextWeekAtFront(r: String)
    requires r == "next  week"
    ensures MatchesAt(NextWeek, r, 0)
  {
    SpelledAt(r, 0, "next");
    SpelledAt(r, 6, "week");
    DoubleSpace(r, 4);
    NextWeekLenIs(r, 0, 2);
  }

  /** Two spaces at `j`. */
  lemma DoubleSpace(s: String, j: nat)
    requires j + 2 < |s| && IsSpace(s[j]) && IsSpace(s[j + 1]) && !IsSpace(s[j + 2])
    ensures SpaceRun(s[j..]) == 2
  {
    assert s[j..][0] == s[j] && s[j..][1..] == s[j + 1..];
    SingleSpace(s, j + 1);
  }

  /** No `next week` starts at a character other than 'n' or 'N'. */
  lemma NoNextAt(s: String, j: nat)
    requires j < |s| && s[j] != 'n' && s[j] != 'N'
    ensures MatchLens(NextWeek, s)[j] == 0
  {
    assert MatchLens(NextWeek, s)[j] == NextWeekLen(s, j);
    assert s[j..][0] == s[j];
  }

  /** A lower-case word written out in `s` at `j` is spelled there. */
  lemma SpelledAt(s: String, j: nat, w: String)
    requires LowerWord(w) && j + |w| <= |s| && s[j..j + |w|] == w
    ensures StartsIgnoringCase(s[j..], w)
  {
    var t := s[j..];
    forall k | 0 <= k < |w| ensures LowerChar(t[k]) == w[k] {
      assert t[k] == s[j..j + |w|][k];
    }
    StartsIgnoringCaseOfChars(t, w);
  }

  // ---------------------------------------------------------------------------
  // A text with a single match
  // ---------------------------------------------------------------------------

  /** A stretch without match starts adds nothing to the `g` scan. */
  lemma {:induction false} StartsInPlain(lens: seq<nat>, i: nat, j: nat)
    requires Fits(lens) && i <= j <= |lens|
    requires forall k :: i <= k < j ==> lens[k] == 0
    ensures StartsIn(lens, i) == StartsIn(lens, j)
    decreases j - i
  {
    if i < j {
      StartsInPlain(lens, i + 1, j);
    }
  }

  /** The `g` scan and deletion over a text whose only match is `[j, j + n)`. */
  lemma SingleMatch(lens: seq<nat>, s: String, j: nat, n: nat)
    requires |lens| == |s| && Fits(lens) && 0 < n && j + n <= |s| && lens[j] == n
    requires forall k :: 0 <= k < j ==> lens[k] == 0
    requires forall k :: j + n <= k < |s| ==> lens[k] == 0
    ensures StartsIn(lens, 0) == [j]
    ensures RemoveIn(lens, s, 0) == s[..j] + s[j + n..]
  {
    SingleMatchStarts(lens, j, n);
    SingleMatchRemoval(lens, s, j, n);
  }

  lemma SingleMatchStarts(lens: seq<nat>, j: nat, n: nat)
    requires Fits(lens) && 0 < n && j + n <= |lens| && lens[j] == n
    requires forall k :: 0 <= k < j ==> lens[k] == 0
    requires forall k :: j + n <= k < |lens| ==> lens[k] == 0
    ensures StartsIn(lens, 0) == [j]
  {
    StartsInPlain(lens, 0, j);
    StartsInPlain(lens, j + n, |lens|);
    assert StartsIn(lens, j) == [j] + StartsIn(lens, j + n);
  }

  lemma SingleMatchRemoval(lens: seq<nat>, s: String, j: nat, n: nat)
    requires |lens| == |s| && Fits(lens) && 0 < n && j + n <= |s| && lens[j] == n
    requires forall k :: 0 <= k < j ==> lens[k] == 0
    requires forall k :: j + n <= k < |s| ==> lens[k] == 0
    ensures RemoveIn(lens, s, 0) == s[..j] + s[j + n..]
  {
    calc {
      RemoveIn(lens, s, 0);
    == { RemoveInPlain(lens, s, 0, j); }
      s[0..j] + RemoveIn(lens, s, j);
    == // the match at `j` is skipped
      s[0..j] + RemoveIn(lens, s, j + n);
    == { RemoveInPlain(lens, s, j + n, |s|); }
      s[0..j] + (s[j + n..|s|] + RemoveIn(lens, s, |s|));
    == { assert RemoveIn(lens, s, |s|) == []; }
      s[..j] + s[j + n..];
    }
  }

  /** The length of the word run at the start of `t`, when it is known. */
  lemma {:induction false} WordRunIs(t: String, n: nat)
    requires n <= |t| && forall k :: 0 <= k < n ==> IsWordChar(t[k])
    requires n == |t| || !IsWordChar(t[n])
    ensures WordRun(t) == n
  {
    if n > 0 {
      WordRunIs(t[1..], n - 1);
    }
  }

  /** `a`, the sigil, a word and `b`, with the sigil nowhere else: one match,
      whose word is that word, and the deletion leaves `a + b`. */
  lemma SigilOnce(c: char, a: String, w: String, b: String)
    requires !IsWordChar(c) && c !in a && c !in b
    requires w != [] && forall x :: x in w ==> IsWordChar(x)
    requires b == [] || !IsWordChar(b[0])
    ensures var s := a + [c] + w + b;
      && Starts(Sigil(c), s) == [|a|]
      && First(Sigil(c), s) == Some(|a|)
      && SigilWord(c, s, |a|) == w
      && RemoveAll(Sigil(c), s) == a + b
  {
    var s := a + [c] + w + b;
    var lens := MatchLens(Sigil(c), s);
    var j := |a|;
    var n := 1 + |w|;
    forall k | 0 <= k < j ensures lens[k] == 0 {
      SigilAt(c, s, k);
      assert s[k] == a[k];
    }
    forall k | j + n <= k < |s| ensures lens[k] == 0 {
      SigilAt(c, s, k);
      assert s[k] == b[k - j - n];
    }
    assert s[j..][1..] == w + b;
    assert forall k :: 0 <= k < |w| ==> (w + b)[k] in w;
    WordRunIs(w + b, |w|);
    assert lens[j] == SigilLen(c, s[j..]);
    SingleMatch(lens, s, j, n);
    assert s[..j] == a && s[j + n..] == b;
    assert s[j + 1..j + n] == w;
  }

  /** `a`, "!high" and `b`, with '!' nowhere else: one priority token, and
      the deletion leaves `a + b`. */
  lemma HighOnce(a: String, b: String)
    requires '!' !in a && '!' !in b
    ensures var s := a + "!high" + b;
      && Starts(PriorityToken, s) == [|a|]
      && First(PriorityToken, s) == Some(|a|)
      && PriorityWord(s, |a|) == "high"
      && RemoveAll(PriorityToken, s) == a + b
  {
    var s := a + "!high" + b;
    var lens := MatchLens(PriorityToken, s);
    var j := |a|;
    forall k | 0 <= k < j ensures lens[k] == 0 {
      assert s[k] == a[k];
      NoPriorityAt(s, k);
    }
    forall k | j + 5 <= k < |s| ensures lens[k] == 0 {
      assert s[k] == b[k - j - 5];
      NoPriorityAt(s, k);
    }
    assert s[j + 1..j + 5] == "high";
    HighAt(s, j);
    SingleMatch(lens, s, j, 5);
    assert s[..j] == a && s[j + 5..] == b;
    assert ToLower(s[j..][1..5]) == "high";
  }

  /** A lower-case word, checked letter by letter. */
  lemma LowerWordOfLetters(w: String)
    requires w != [] && forall x :: x in w ==> 'a' <= x <= 'z'
    ensures LowerWord(w)
  {
    forall k | 0 <= k < |w| ensures 'a' <= w[k] <= 'z' {
      assert w[k] in w;
    }
  }

  /** A lower-case word at the very end of a text, after a non-word
      character, is a whole-word match. */
  lemma WholeMatchAtEnd(w: String, a: String)
    requires LowerWord(w) && (a == [] || !IsWordChar(a[|a| - 1]))
    ensures MatchesAt(Whole(w), a + w, |a|)
  {
    WholeSpelledAtEnd(w, a);
    WholeAt(w, a + w, |a|);
  }

  lemma WholeSpelledAtEnd(w: String, a: String)
    requires LowerWord(w) && (a == [] || !IsWordChar(a[|a| - 1]))
    ensures |a| < |a + w| && SpellsWholeAt(w, a + w, |a|)
  {
    var s := a + w;
    var j := |a|;
    assert s[j..j + |w|] == w;
    SpelledAt(s, j, w);
    WholeMatchLetters(w, s[j..]);
    assert IsWordChar(s[j]) && IsWordChar(s[|s| - 1]);
    if j > 0 {
      assert s[j - 1] == a[|a| - 1];
    }
  }

  /** `a` followed by a lower-case word at the very end, where `a` ends in
      no word character and holds the word's first letter in neither case:
      one whole-word match, and the deletion leaves `a`. */
  lemma WholeAtEnd(w: String, a: String)
    requires LowerWord(w) && w[0] !in a && ((w[0] as int - 32) as char) !in a
    requires a == [] || !IsWordChar(a[|a| - 1])
    ensures MatchesAt(Whole(w), a + w, |a|)
    ensures RemoveAll(Whole(w), a + w) == a
  {
    var s := a + w;
    var lens := MatchLens(Whole(w), s);
    var j := |a|;
    forall k | 0 <= k < j ensures lens[k] == 0 {
      assert s[k] == a[k];
      WholeAt(w, s, k);
      assert s[k..][0] == s[k];
    }
    WholeMatchAtEnd(w, a);
    assert lens[j] == |w| by {
      WholeAt(w, s, j);
    }
    SingleMatch(lens, s, j, |w|);
    assert s[..j] == a;
  }

  /** The word a sigil match at `j` carries: the `(\w+)` group. */
  function SigilWord(c: char, s: String, j: nat): (w: String)
    requires j < |s| && MatchesAt(Sigil(c), s, j)
    ensures w != [] && forall k :: 0 <= k < |w| ==> IsWordChar(w[k])
  {
    var t := s[j..];
    var n := SigilLen(c, t);
    assert s[j + 1..j + n] == t[1..][..n - 1];
    s[j + 1..j + n]
  }

  /** A sigil match is the sigil followed by the longest run of word
      characters; a sigil not followed by a word character is no match. */
  lemma SigilMatchShape(c: char, t: String)
    requires t != []
    ensures SigilLen(c, t) > 0 ==> t[0] == c && (SigilLen(c, t) == |t| || !IsWordChar(t[SigilLen(c, t)]))
    ensures SigilLen(c, t) == 0 && t[0] == c ==> |t| == 1 || !IsWordChar(t[1])
  {
    var n := WordRun(t[1..]);
    assert 1 + n < |t| ==> t[1..][n] == t[1 + n];
    assert |t| > 1 ==> t[1..][0] == t[1];
  }

  /** What the scan needs to know of a sigil pattern: every match starts
      with the sigil and stops in front of a non-word character, and a
      sigil where no match starts is followed by a non-word character. */
  predicate SigilShaped(lens: seq<nat>, s: String, c: char)
    requires |lens| == |s| && Fits(lens)
  {
    && (forall j {:trigger lens[j]} :: 0 <= j < |s| && lens[j] > 0 ==>
          s[j] == c && (j + lens[j] == |s| || !IsWordChar(s[j + lens[j]])))
    && (forall j, k :: 0 <= j < |s| && 0 <= k < |s| && k == j + 1 && lens[j] == 0 && s[j] == c ==>
          !IsWordChar(s[k]))
  }

  lemma SigilLensShaped(c: char, s: String)
    ensures SigilShaped(MatchLens(Sigil(c), s), s, c)
  {
    var lens := MatchLens(Sigil(c), s);
    forall j | 0 <= j < |s|
      ensures lens[j] == SigilLen(c, s[j..])
      ensures lens[j] > 0 ==> s[j] == c && (j + lens[j] == |s| || !IsWordChar(s[j + lens[j]]))
      ensures lens[j] == 0 && s[j] == c && j + 1 < |s| ==> !IsWordChar(s[j + 1])
    {
      var t := s[j..];
      SigilMatchShape(c, t);
      assert t[0] == s[j];
      assert j + lens[j] < |s| ==> t[lens[j]] == s[j + lens[j]];
      assert j + 1 < |s| ==> t[1] == s[j + 1];
    }
  }

  /** No sigil in `r` is followed by a word character. */
  predicate NoSigil(c: char, r: String) {
    forall j, k :: 0 <= j < |r| && 0 <= k < |r| && k == j + 1 && r[j] == c ==> !IsWordChar(r[k])
  }

  lemma NoSigilIsNoMatch(c: char, r: String)
    ensures NoSigil(c, r) <==> NoMatch(Sigil(c), r)
  {
    forall j | 0 <= j < |r| ensures MatchesAt(Sigil(c), r, j) <==> r[j] == c && j + 1 < |r| && IsWordChar(r[j + 1]) {
      SigilAt(c, r, j);
    }
    if NoMatch(Sigil(c), r) {
      forall j, k | 0 <= j < |r| && 0 <= k < |r| && k == j + 1 && r[j] == c ensures !IsWordChar(r[k]) {
        assert !MatchesAt(Sigil(c), r, j);
      }
    }
  }

  /** A sigil match starts wherever the sigil is followed by a word character. */
  lemma SigilAt(c: char, r: String, j: nat)
    requires j < |r|
    ensures MatchesAt(Sigil(c), r, j) <==> r[j] == c && j + 1 < |r| && IsWordChar(r[j + 1])
  {
    var t := r[j..];
    assert MatchLens(Sigil(c), r)[j] == SigilLen(c, t);
    assert t[0] == r[j];
    assert j + 1 < |r| ==> t[1..][0] == r[j + 1];
  }

  /** Whenever scanning restarts at the end of the text or in front of a
      non-word character, the text it leaves does not start with one. */
  lemma {:induction false} RemainderStartsNonWord(lens: seq<nat>, s: String, c: char, i: nat)
    requires |lens| == |s| && Fits(lens) && SigilShaped(lens, s, c)
    requires i <= |s| && (i == |s| || !IsWordChar(s[i]))
    ensures var r := RemoveIn(lens, s, i); r == [] || !IsWordChar(r[0])
    decreases |s| - i
  {
    if i < |s| && lens[i] > 0 {
      RemainderStartsNonWord(lens, s, c, i + lens[i]);
    }
  }

  /** A sigil survives the deletion of every sigil match only when no word
      character follows it, and the deletion never puts one after it. */
  lemma {:induction false} RemovalLeavesNoSigil(lens: seq<nat>, s: String, c: char, i: nat)
    requires |lens| == |s| && Fits(lens) && SigilShaped(lens, s, c)
    requires i <= |s|
    ensures NoSigil(c, RemoveIn(lens, s, i))
    decreases |s| - i
  {
    if i < |s| {
      if lens[i] > 0 {
        RemovalLeavesNoSigil(lens, s, c, i + lens[i]);
      } else {
        RemovalLeavesNoSigil(lens, s, c, i + 1);
        var rest := RemoveIn(lens, s, i + 1);
        if s[i] == c {
          assert i + 1 == |s| || !IsWordChar(s[i + 1]);
          RemainderStartsNonWord(lens, s, c, i + 1);
        }
        ConsNoSigil(c, s[i], rest);
      }
    }
  }

  lemma ConsNoSigil(c: char, x: char, rest: String)
    requires NoSigil(c, rest)
    requires x == c ==> rest == [] || !IsWordChar(rest[0])
    ensures NoSigil(c, [x] + rest)
  {
    var r := [x] + rest;
    forall j, k | 0 <= j < |r| && 0 <= k < |r| && k == j + 1 && r[j] == c ensures !IsWordChar(r[k]) {
      if j > 0 {
        assert r[j] == rest[j - 1] && r[k] == rest[k - 1];
      } else {
        assert r[k] == rest[0];
      }
    }
  }

  /** Deleting every `#\w+` (or `@\w+`) leaves none behind. */
  lemma SigilRemoveAllLeavesNone(c: char, s: String)
    ensures NoMatch(Sigil(c), RemoveAll(Sigil(c), s))
  {
    SigilLensShaped(c, s);
    RemovalLeavesNoSigil(MatchLens(Sigil(c), s), s, c, 0);
    NoSigilIsNoMatch(c, RemoveAll(Sigil(c), s));
  }

  /** Any piece of a text without sigil matches has none either. */
  lemma SliceNoSigil(c: char, s: String, lo: nat, hi: nat)
    requires lo <= hi <= |s| && NoSigil(c, s)
    ensures NoSigil(c, s[lo..hi])
  {
    var t := s[lo..hi];
    forall i | 0 <= i < |t| ensures t[i] == s[lo + i] {
    }
  }

  /** Trimming cannot create a sigil match. */
  lemma TrimKeepsNoSigil(c: char, s: String)
    requires NoMatch(Sigil(c), s)
    ensures NoMatch(Sigil(c), Trim(s))
  {
    var lo, t := TrimIsSlice(s);
    SliceKeepsNoMatch(c, s, t, lo);
  }

  lemma SliceKeepsNoMatch(c: char, s: String, t: String, lo: nat)
    requires lo + |t| <= |s| && t == s[lo..lo + |t|]
    requires NoMatch(Sigil(c), s)
    ensures NoMatch(Sigil(c), t)
  {
    NoSigilIsNoMatch(c, s);
    SliceNoSigil(c, s, lo, lo + |t|);
    NoSigilIsNoMatch(c, t);
  }

  // ---------------------------------------------------------------------------
  // `!(high|medium|low)`
  // ---------------------------------------------------------------------------

  /** The `(high|medium|low)` group of a priority match, lower-cased. */
  function PriorityWord(s: String, j: nat): (w: String)
    requires j < |s| && MatchesAt(PriorityToken, s, j)
    ensures w == "high" || w == "medium" || w == "low"
  {
    var t := s[j..];
    var n := PriorityLen(t);
    PriorityGroup(t);
    ToLower(t[1..n])
  }

  lemma PriorityGroup(t: String)
    requires PriorityLen(t) > 0
    ensures var n := PriorityLen(t); ToLower(t[1..n]) in {"high", "medium", "low"}
  {
    var n := PriorityLen(t);
    var w := if n == 5 then "high" else if n == 7 then "medium" else "low";
    assert StartsIgnoringCase(t[1..], w);
    StartsIgnoringCaseLower(t[1..], w);
    assert t[1..][..|w|] == t[1..n];
  }

  /** One pass of the `g` flag does not delete a priority token that the
      deletion itself creates: "!hi!highgh" keeps "!high". */
  lemma PriorityRemovalIsSinglePass(s: String, r: String)
    requires s == "!hi!highgh" && r == "!high"
    ensures RemoveAll(PriorityToken, s) == r
    ensures MatchesAt(PriorityToken, r, 0)
  {
    ExampleLens(s);
    ExampleRemoval(MatchLens(PriorityToken, s), s);
    HighAt(r, 0);
  }

  lemma ExampleRemoval(lens: seq<nat>, s: String)
    requires s == "!hi!highgh" && |lens| == |s| && Fits(lens)
    requires lens[0] == 0 && lens[1] == 0 && lens[2] == 0 && lens[3] == 5 && lens[8] == 0 && lens[9] == 0
    ensures RemoveIn(lens, s, 0) == "!high"
  {
    assert RemoveIn(lens, s, 8) == "gh";
    assert RemoveIn(lens, s, 3) == "gh";
    assert RemoveIn(lens, s, 2) == "igh";
    assert RemoveIn(lens, s, 1) == "high";
  }

  lemma ExampleLens(s: String)
    requires s == "!hi!highgh"
    ensures var lens := MatchLens(PriorityToken, s);
      lens[0] == 0 && lens[1] == 0 && lens[2] == 0 && lens[3] == 5 && lens[8] == 0 && lens[9] == 0
  {
    NoPriorityAt(s, 1);
    NoPriorityAt(s, 2);
    NoPriorityAt(s, 8);
    NoPriorityAt(s, 9);
    CutPriorityAt(s, 0);
    HighAt(s, 3);
  }

  lemma NoPriorityAt(s: String, j: nat)
    requires j < |s| && s[j] != '!'
    ensures MatchLens(PriorityToken, s)[j] == 0
  {
    assert s[j..][0] == s[j];
  }

  /** A '!' followed by "h?!" starts no priority token. */
  lemma CutPriorityAt(s: String, j: nat)
    requires j + 3 < |s| && s[j + 1] == 'h' && s[j + 3] == '!'
    ensures MatchLens(PriorityToken, s)[j] == 0
  {
    var t := s[j..][1..];
    assert t[0] == 'h' && t[2] == '!';
    assert !StartsIgnoringCase(t, "high") by {
      if StartsIgnoringCase(t, "high") {
        StartsIgnoringCaseAt(t, "high", 2);
      }
    }
  }

  lemma HighAt(s: String, j: nat)
    requires j + 5 <= |s| && s[j] == '!' && s[j + 1..j + 5] == "high"
    ensures MatchLens(PriorityToken, s)[j] == 5
  {
    var t := s[j..];
    var x := t[1..];
    var w := "high";
    forall k | 0 <= k < |w| ensures LowerChar(x[k]) == w[k] {
      assert x[k] == s[j + 1..j + 5][k];
    }
    StartsIgnoringCaseOfChars(x, w);
  }
}
