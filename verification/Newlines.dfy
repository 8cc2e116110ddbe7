/** Newline normalization and the preservation of a file's line endings. */
module Newlines {

  const CR := '\r'
  const LF := '\n'
  const SAMPLE_SIZE := 4096

  /** `s.replace("\r\n", "\n")`: pairs are found from left to right and never overlap. */
  function ReplacePairs(s: string): string {
    if |s| < 2 then s
    else if s[0] == CR && s[1] == LF then [LF] + ReplacePairs(s[2..])
    else [s[0]] + ReplacePairs(s[1..])
  }

  /** `s.replace("\r", "\n")`. */
  function ReplaceReturns(s: string): string {
    if s == [] then [] else [if s[0] == CR then LF else s[0]] + ReplaceReturns(s[1..])
  }

  /** `s.replace("\n", "\r\n")`. */
  function Expand(s: string): string {
    if s == [] then [] else (if s[0] == LF then [CR, LF] else [s[0]]) + Expand(s[1..])
  }

  function Normalize(s: string): string { ReplaceReturns(ReplacePairs(s)) }

  /** Universal newlines in one pass: each of `\r\n`, `\r` and `\n` is one line end. */
  function Universal(s: string): string {
    if s == [] then []
    else if s[0] == CR && |s| > 1 && s[1] == LF then [LF] + Universal(s[2..])
    else [if s[0] == CR then LF else s[0]] + Universal(s[1..])
  }

  /** The two replacements are one pass over the text. */
  lemma {:induction false} NormalizeIsUniversal(s: string)
    ensures Normalize(s) == Universal(s)
    decreases |s|
  {
    if |s| >= 2 {
      if s[0] == CR && s[1] == LF {
        NormalizeIsUniversal(s[2..]);
        assert ReplacePairs(s)[1..] == ReplacePairs(s[2..]);
      } else {
        NormalizeIsUniversal(s[1..]);
        assert ReplacePairs(s)[1..] == ReplacePairs(s[1..]);
      }
    } else if |s| == 1 {
      assert s[1..] == [] && Universal(s[1..]) == [] && ReplaceReturns(s[1..]) == [];
      assert ReplacePairs(s) == s;
    }
  }

  lemma {:induction false} ReplaceReturnsLeavesNone(s: string)
    ensures CR !in ReplaceReturns(s)
    decreases |s|
  {
    if s != [] {
      ReplaceReturnsLeavesNone(s[1..]);
    }
  }

  lemma {:induction false} NothingToReplace(s: string)
    requires CR !in s
    ensures ReplacePairs(s) == s && ReplaceReturns(s) == s
    decreases |s|
  {
    if s != [] {
      NothingToReplace(s[1..]);
    }
  }

  /** A text is normalized exactly if it has no carriage return. */
  lemma NormalizedIff(s: string)
    ensures CR !in Normalize(s)
    ensures Normalize(s) == s <==> CR !in s
  {
    ReplaceReturnsLeavesNone(ReplacePairs(s));
    if CR !in s {
      NothingToReplace(s);
    }
  }

  /** Main result: normalization is idempotent. */
  lemma NormalizeIsIdempotent(s: string)
    ensures Normalize(Normalize(s)) == Normalize(s)
  {
    NormalizedIff(s);
    NormalizedIff(Normalize(s));
  }

  lemma {:induction false} UniversalOfExpanded(s: string)
    requires CR !in s
    ensures Universal(Expand(s)) == s
    decreases |s|
  {
    if s != [] {
      UniversalOfExpanded(s[1..]);
      if s[0] == LF {
        assert Expand(s)[2..] == Expand(s[1..]);
      } else {
        assert Expand(s)[1..] == Expand(s[1..]);
      }
    }
  }

  /** Main result: expanding a normalized text and normalizing it again gives it back. */
  lemma ExpandRoundTrip(s: string)
    ensures Normalize(Expand(Normalize(s))) == Normalize(s)
  {
    NormalizedIff(s);
    NormalizeIsUniversal(Expand(Normalize(s)));
    UniversalOfExpanded(Normalize(s));
  }

  // ---------------------------------------------------------------------
  // Preserving a file's line endings
  // ---------------------------------------------------------------------

  /** Occurrences of CR LF. */
  function CountPairs(s: string): nat {
    if |s| < 2 then 0
    else if s[0] == CR && s[1] == LF then 1 + CountPairs(s[2..])
    else CountPairs(s[1..])
  }

  function CountLineFeeds(s: string): nat {
    if s == [] then 0 else (if s[0] == LF then 1 else 0) + CountLineFeeds(s[1..])
  }

  function Sample(original: string): string { if |original| > SAMPLE_SIZE then original[..SAMPLE_SIZE] else original }

  predicate PrefersPairs(original: string) {
    var sample := Sample(original);
    CountPairs(sample) > CountLineFeeds(sample) - CountPairs(sample)
  }

  /** `preserve_text_line_endings`. */
  function Preserve(content: string, original: string): string {
    if PrefersPairs(original) then Expand(Normalize(content)) else content
  }

  /** The positions of CR LF pairs, and those of line feeds without a CR in front. */
  predicate IsPair(s: string, i: int) { 0 <= i && i + 1 < |s| && s[i] == '\r' && s[i + 1] == '\n' }

  predicate IsFeed(s: string, i: int) { 0 <= i < |s| && s[i] == '\n' }

  function PairsAt(s: string): set<int> { set i | 0 <= i < |s| && IsPair(s, i) }

  function LoneFeedsAt(s: string): set<int> { set i | 0 <= i < |s| && IsFeed(s, i) && !IsPair(s, i - 1) }

  function FeedsAt(s: string): set<int> { set i | 0 <= i < |s| && IsFeed(s, i) }

  function Shift(a: set<int>, n: int): set<int> { set i | i in a :: i + n }

  lemma PickOne<T>(a: set<T>) returns (x: T)
    requires |a| > 0
    ensures x in a
  {
    x :| x in a;
  }

  lemma ShiftOneMore(rest: set<int>, x: int, n: int)
    requires x !in rest
    ensures Shift(rest + {x}, n) == Shift(rest, n) + {x + n} && x + n !in Shift(rest, n)
  {
  }

  lemma {:induction false} ShiftCount(a: set<int>, n: int)
    ensures |Shift(a, n)| == |a|
    decreases |a|
  {
    if |a| > 0 {
      var x := PickOne(a);
      ShiftCount(a - {x}, n);
      ShiftOneMore(a - {x}, x, n);
      assert a == a - {x} + {x};
    }
  }

  lemma {:induction false} CountsFeeds(s: string)
    ensures CountLineFeeds(s) == |FeedsAt(s)|
    decreases |s|
  {
    if s != [] {
      CountsFeeds(s[1..]);
      ShiftCount(FeedsAt(s[1..]), 1);
      forall i
        ensures IsFeed(s, i) <==> (i == 0 && s[0] == LF) || IsFeed(s[1..], i - 1)
      {
        if i > 0 && i < |s| { assert s[1..][i - 1] == s[i]; }
      }
      ShiftedSet(FeedsAt(s), FeedsAt(s[1..]), 1, s[0] == LF);
    }
  }

  lemma {:induction false} CountsPairs(s: string)
    ensures CountPairs(s) == |PairsAt(s)|
    decreases |s|
  {
    if |s| >= 2 {
      var n := if s[0] == CR && s[1] == LF then 2 else 1;
      CountsPairs(s[n..]);
      ShiftCount(PairsAt(s[n..]), n);
      PairsShifted(s, n);
    } else {
      assert PairsAt(s) == {};
    }
  }

  lemma PairsShifted(s: string, n: int)
    requires 1 < |s| && n == if IsPair(s, 0) then 2 else 1
    ensures PairsAt(s) == Shift(PairsAt(s[n..]), n) + if n == 2 then {0} else {}
  {
    forall i
      ensures IsPair(s, i) <==> (i == 0 && n == 2) || IsPair(s[n..], i - n)
    {
      PairLater(s, n, i);
    }
    hide IsPair;
    assert forall i :: IsPair(s, i) ==> 0 <= i < |s| by { PairBounds(s); }
    assert forall i :: IsPair(s[n..], i) ==> 0 <= i < |s[n..]| by { PairBounds(s[n..]); }
    ShiftedSet(PairsAt(s), PairsAt(s[n..]), n, n == 2);
  }

  lemma PairBounds(s: string)
    ensures forall i | IsPair(s, i) :: 0 <= i < |s|
  {
  }

  lemma PairLater(s: string, n: int, i: int)
    requires 0 < n <= |s| && 1 < |s| && n == if IsPair(s, 0) then 2 else 1
    ensures IsPair(s, i) <==> (i == 0 && n == 2) || IsPair(s[n..], i - n)
  {
    if i >= n && i + 1 < |s| { assert s[n..][i - n] == s[i] && s[n..][i - n + 1] == s[i + 1]; }
  }

  lemma ShiftedSet(all: set<int>, later: set<int>, n: int, first: bool)
    requires forall i :: i in all <==> (i == 0 && first) || i - n in later
    ensures all == Shift(later, n) + if first then {0} else {}
  {
    forall i | i in all && !(i == 0 && first)
      ensures i in Shift(later, n)
    {
      assert i - n in later && i == (i - n) + n;
    }
    forall i | i in Shift(later, n)
      ensures i in all
    {
      var j :| j in later && i == j + n;
      assert i - n == j;
    }
  }

  /** Main result: a file is taken for a CRLF file exactly if its first 4096 characters have more pairs than lone line feeds. */
  lemma PrefersPairsIff(original: string)
    ensures var sample := if |original| > 4096 then original[..4096] else original;
            PrefersPairs(original) <==> |PairsAt(sample)| > |LoneFeedsAt(sample)|
  {
    var sample := Sample(original);
    CountsPairs(sample);
    CountsFeeds(sample);
    ShiftCount(PairsAt(sample), 1);
    assert FeedsAt(sample) == LoneFeedsAt(sample) + Shift(PairsAt(sample), 1) by {
      forall i | i in FeedsAt(sample) && i !in LoneFeedsAt(sample)
        ensures i in Shift(PairsAt(sample), 1)
      {
        assert i - 1 in PairsAt(sample);
      }
    }
    assert LoneFeedsAt(sample) !! Shift(PairsAt(sample), 1);
  }

  /** Every carriage return is followed, and every line feed preceded, by its other half. */
  predicate Paired(s: string) {
    && (forall i | 0 <= i < |s| && s[i] == CR :: i + 1 < |s| && s[i + 1] == LF)
    && forall i | 0 <= i < |s| && s[i] == LF :: i > 0 && s[i - 1] == CR
  }

  lemma PairedAppend(a: string, b: string)
    requires Paired(a) && Paired(b)
    ensures Paired(a + b)
  {
    var s := a + b;
    forall i | 0 <= i < |s| && s[i] == CR
      ensures i + 1 < |s| && s[i + 1] == LF
    {
      if i < |a| { assert a[i] == CR; } else { assert b[i - |a|] == CR; }
    }
    forall i | 0 <= i < |s| && s[i] == LF
      ensures i > 0 && s[i - 1] == CR
    {
      if i < |a| { assert a[i] == LF; } else { assert b[i - |a|] == LF; }
    }
  }

  lemma {:induction false} ExpandedIsPaired(s: string)
    requires CR !in s
    ensures Paired(Expand(s))
    decreases |s|
  {
    if s != [] {
      ExpandedIsPaired(s[1..]);
      PairedAppend(if s[0] == LF then [CR, LF] else [s[0]], Expand(s[1..]));
    }
  }

  /** Main result: preserving twice for the same file is preserving once, and the CRLF branch leaves every CR and LF paired. */
  lemma PreserveIsIdempotent(content: string, original: string)
    ensures Preserve(Preserve(content, original), original) == Preserve(content, original)
    ensures PrefersPairs(original) ==> Paired(Preserve(content, original))
    ensures Normalize(Preserve(content, original)) == Normalize(content)
  {
    ExpandRoundTrip(content);
    NormalizedIff(content);
    ExpandedIsPaired(Normalize(content));
  }

  lemma {:induction false} PairsOfExpanded(s: string)
    requires CR !in s
    ensures CountPairs(Expand(s)) == CountLineFeeds(Expand(s)) == CountLineFeeds(s)
    decreases |s|
  {
    if s != [] {
      PairsOfExpanded(s[1..]);
      var rest := Expand(s[1..]);
      if s[0] == LF {
        assert Expand(s)[2..] == rest && Expand(s)[1..] == [LF] + rest && Expand(s)[1..][1..] == rest;
      } else {
        assert Expand(s)[1..] == rest;
        if rest == [] { assert |Expand(s)| == 1; }
      }
    }
  }

  /** A short file written with CRLF keeps being recognized as such, as long as it has a line end. */
  lemma PreferenceIsStable(content: string, original: string)
    requires PrefersPairs(original) && |Preserve(content, original)| <= SAMPLE_SIZE
    ensures PrefersPairs(Preserve(content, original)) <==> LF in Normalize(content)
  {
    NormalizedIff(content);
    PairsOfExpanded(Normalize(content));
    HasLineFeed(Normalize(content));
  }

  lemma {:induction false} HasLineFeed(s: string)
    ensures CountLineFeeds(s) > 0 <==> LF in s
    decreases |s|
  {
    if s != [] {
      HasLineFeed(s[1..]);
      assert s == [s[0]] + s[1..];
    }
  }
}
