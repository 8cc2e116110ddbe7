/** Scoring a path against a search query by its leftmost subsequence match. */
module Search {
  import opened Wrappers

  datatype Match = Match(score: int, indices: seq<int>)

  /** Case mapping, trimming and base names, which belong to the platform. */
  datatype Text = Text(lower: char -> char, trim: string -> string, baseName: string -> string)

  const SEPARATORS := ['/', '\\', '-', '_', '.']

  function MapChars(s: string, f: char -> char): string { seq(|s|, i requires 0 <= i < |s| => f(s[i])) }

  /** Backslashes read as slashes, in lower case. */
  function NormalPath(relativePath: string, text: Text): (path: string)
    ensures |path| == |relativePath|
    ensures forall i | 0 <= i < |path| :: path[i] == if relativePath[i] == '\\' then text.lower('/') else text.lower(relativePath[i])
  {
    MapChars(relativePath, c => text.lower(if c == '\\' then '/' else c))
  }

  function NormalQuery(query: string, text: Text): string { MapChars(text.trim(query), text.lower) }

  /** `e` places the query in the path, in order and character by character. */
  ghost predicate Embeds(e: seq<int>, path: string, query: string) {
    && |e| == |query|
    && (forall k | 0 <= k < |e| :: 0 <= e[k] < |path| && path[e[k]] == query[k])
    && forall j, k | 0 <= j < k < |e| :: e[j] < e[k]
  }

  ghost predicate IsSubsequence(query: string, path: string) { exists e :: Embeds(e, path, query) }

  /** `m` is an embedding that no other one undercuts at any position. */
  ghost predicate Leftmost(m: seq<int>, path: string, query: string) {
    Embeds(m, path, query) && forall e, k | Embeds(e, path, query) && 0 <= k < |m| :: m[k] <= e[k]
  }

  predicate StartsWord(relativePath: string, i: int) {
    i == 0 || (0 < i <= |relativePath| && relativePath[i - 1] in SEPARATORS)
  }

  /** One point a character, ten more at the start of a word, five more next to the previous match. */
  function Points(m: seq<int>, relativePath: string): int
    decreases |m|
  {
    if m == [] then 0
    else
      var n := |m| - 1;
      Points(m[..n], relativePath) + 1
        + (if StartsWord(relativePath, m[n]) then 10 else 0)
        + (if n > 0 && m[n - 1] == m[n] - 1 then 5 else 0)
  }

  predicate IncludesAt(s: string, part: string, i: int) { 0 <= i <= |s| - |part| && s[i..i + |part|] == part }

  predicate Includes(s: string, part: string) { exists i | 0 <= i <= |s| - |part| :: IncludesAt(s, part, i) }

  function FileNamePoints(relativePath: string, query: string, text: Text): int {
    if Includes(MapChars(text.baseName(relativePath), text.lower), query) then 50 else 0
  }

  /** Match `k` is the first character of the path, or follows a separator. */
  predicate IsWordStart(m: seq<int>, relativePath: string, k: int) {
    0 <= k < |m| && (m[k] == 0 || (0 < m[k] <= |relativePath| && relativePath[m[k] - 1] in "/\\-_."))
  }

  /** Match `k` is right behind the one before. */
  predicate IsNeighbour(m: seq<int>, k: int) { 1 <= k < |m| && m[k - 1] + 1 == m[k] }

  ghost function WordStarts(m: seq<int>, relativePath: string): set<int> { set k | 0 <= k < |m| && IsWordStart(m, relativePath, k) }

  ghost function Neighbours(m: seq<int>): set<int> { set k | 0 <= k < |m| && IsNeighbour(m, k) }

  lemma WordStartsSnoc(m: seq<int>, relativePath: string)
    requires m != []
    ensures var n := |m| - 1;
            |WordStarts(m, relativePath)| == |WordStarts(m[..n], relativePath)| + if StartsWord(relativePath, m[n]) then 1 else 0
  {
    var n := |m| - 1;
    var before := WordStarts(m[..n], relativePath);
    forall k | 0 <= k < n
      ensures IsWordStart(m, relativePath, k) <==> IsWordStart(m[..n], relativePath, k)
    {
    }
    assert StartsWord(relativePath, m[n]) <==> IsWordStart(m, relativePath, n);
    assert n !in before && WordStarts(m, relativePath) == before + if IsWordStart(m, relativePath, n) then {n} else {};
  }

  lemma NeighboursSnoc(m: seq<int>)
    requires m != []
    ensures var n := |m| - 1;
            |Neighbours(m)| == |Neighbours(m[..n])| + if n > 0 && m[n - 1] == m[n] - 1 then 1 else 0
  {
    var n := |m| - 1;
    var before := Neighbours(m[..n]);
    forall k | 0 <= k < n
      ensures IsNeighbour(m, k) <==> IsNeighbour(m[..n], k)
    {
    }
    assert n !in before && Neighbours(m) == before + if IsNeighbour(m, n) then {n} else {};
  }

  lemma {:induction false} PointsCount(m: seq<int>, relativePath: string)
    ensures Points(m, relativePath) == |m| + 10 * |WordStarts(m, relativePath)| + 5 * |Neighbours(m)|
    decreases |m|
  {
    if m != [] {
      PointsCount(m[..|m| - 1], relativePath);
      WordStartsSnoc(m, relativePath);
      NeighboursSnoc(m);
    }
  }

  /** `part` is somewhere in `s`. */
  ghost predicate Contains(s: string, part: string) { exists before, after :: s == before + part + after }

  lemma IncludesIffContains(s: string, part: string)
    ensures Includes(s, part) <==> Contains(s, part)
  {
    if i :| 0 <= i <= |s| - |part| && IncludesAt(s, part, i) {
      assert s == s[..i] + part + s[i + |part|..];
    }
    if before, after :| s == before + part + after {
      assert s[|before|..|before| + |part|] == part && IncludesAt(s, part, |before|);
    }
  }

  /** Any two leftmost embeddings are the same, so the specification has one answer. */
  lemma LeftmostIsUnique(a: seq<int>, b: seq<int>, path: string, query: string)
    requires Leftmost(a, path, query) && Leftmost(b, path, query)
    ensures a == b
  {
    assert forall k | 0 <= k < |a| :: a[k] <= b[k] && b[k] <= a[k];
  }

  /** The embedding `e` is nowhere left of `m`, and continues at `at` or later. */
  ghost predicate NotBetter(e: seq<int>, m: seq<int>, at: int) {
    && |m| <= |e| && (forall k | 0 <= k < |m| :: m[k] <= e[k])
    && (|m| < |e| ==> at <= e[|m|])
  }

  /** No embedding of the query can do better than the `m` found so far, or continue before `at`. */
  ghost predicate NoneBetter(m: seq<int>, at: int, path: string, query: string) {
    forall e | Embeds(e, path, query) :: NotBetter(e, m, at)
  }

  /** A character that does not match is no place to continue. */
  lemma SkipKeeps(m: seq<int>, at: int, path: string, query: string)
    requires 0 <= at < |path| && |m| < |query| && NoneBetter(m, at, path, query)
    requires path[at] != query[|m|]
    ensures NoneBetter(m, at + 1, path, query)
  {
    forall e | Embeds(e, path, query)
      ensures NotBetter(e, m, at + 1)
    {
      assert NotBetter(e, m, at) && path[e[|m|]] == query[|m|];
    }
  }

  lemma TakeKeeps(m: seq<int>, at: int, path: string, query: string)
    requires 0 <= at < |path| && |m| < |query| && NoneBetter(m, at, path, query)
    ensures NoneBetter(m + [at], at + 1, path, query)
  {
    forall e | Embeds(e, path, query)
      ensures NotBetter(e, m + [at], at + 1)
    {
      assert NotBetter(e, m, at);
    }
  }

  /** `m` embeds as much of the query as it has positions, all before `at`. */
  ghost predicate EmbedsPart(m: seq<int>, at: int, path: string, query: string) {
    && |m| <= |query| && 0 <= at <= |path|
    && (forall k | 0 <= k < |m| :: 0 <= m[k] < at && path[m[k]] == query[k])
    && forall j, k | 0 <= j < k < |m| :: m[j] < m[k]
  }

  lemma EmbedsNext(m: seq<int>, at: int, path: string, query: string)
    requires EmbedsPart(m, at, path, query) && at < |path| && |m| < |query| && path[at] == query[|m|]
    ensures EmbedsPart(m + [at], at + 1, path, query)
  {
  }

  lemma PointsNext(m: seq<int>, at: int, relativePath: string)
    ensures Points(m + [at], relativePath) ==
            Points(m, relativePath) + 1 + (if StartsWord(relativePath, at) then 10 else 0)
              + (if |m| > 0 && m[|m| - 1] == at - 1 then 5 else 0)
  {
    assert (m + [at])[..|m|] == m;
  }

  lemma Complete(m: seq<int>, at: int, path: string, query: string)
    requires |m| == |query| && EmbedsPart(m, at, path, query) && NoneBetter(m, at, path, query)
    ensures Leftmost(m, path, query)
  {
    forall e | Embeds(e, path, query)
      ensures forall k | 0 <= k < |m| :: m[k] <= e[k]
    {
      assert NotBetter(e, m, at);
    }
  }

  /** The loop: the leftmost embedding of as much of the query as there is, and its points. */
  method Scan(relativePath: string, path: string, query: string) returns (matched: seq<int>, score: int)
    requires |path| == |relativePath|
    ensures EmbedsPart(matched, |path|, path, query)
    ensures if |matched| == |query| then Leftmost(matched, path, query) else !IsSubsequence(query, path)
    ensures score == Points(matched, relativePath)
  {
    matched, score := [], 0;
    var pathIndex, queryIndex := 0, 0;
    while pathIndex < |path| && queryIndex < |query|
      invariant queryIndex == |matched| && EmbedsPart(matched, pathIndex, path, query)
      invariant NoneBetter(matched, pathIndex, path, query)
      invariant score == Points(matched, relativePath)
    {
      if path[pathIndex] == query[queryIndex] {
        TakeKeeps(matched, pathIndex, path, query);
        PointsNext(matched, pathIndex, relativePath);
        EmbedsNext(matched, pathIndex, path, query);
        matched := matched + [pathIndex];
        score := score + 1;
        if StartsWord(relativePath, pathIndex) {
          score := score + 10;
        }
        if |matched| > 1 && matched[|matched| - 2] == pathIndex - 1 {
          score := score + 5;
        }
        queryIndex := queryIndex + 1;
      } else {
        SkipKeeps(matched, pathIndex, path, query);
      }
      pathIndex := pathIndex + 1;
    }
    if |matched| < |query| {
      NoRoomLeft(matched, path, query);
    } else {
      Complete(matched, pathIndex, path, query);
    }
  }

  lemma NoRoomLeft(m: seq<int>, path: string, query: string)
    requires |m| < |query| && NoneBetter(m, |path|, path, query)
    ensures !IsSubsequence(query, path)
  {
    forall e
      ensures !Embeds(e, path, query)
    {
      assert NotBetter(e, m, |path|) ==> |m| > |e| || |m| == |e| || |path| <= e[|m|];
    }
  }

  /**
   * `scoreWorkspaceSearchMatch`: no match exactly if the query is not a
   * subsequence of the path, and otherwise the leftmost embedding and its score.
   */
  method ScoreMatch(relativePath: string, rawQuery: string, text: Text) returns (r: Option<Match>)
    ensures var path, query := NormalPath(relativePath, text), NormalQuery(rawQuery, text);
            && (query == "" ==> r == Some(Match(1, [])))
            && (r.None? <==> !IsSubsequence(query, path))
            && (r.Some? ==> Leftmost(r.value.indices, path, query))
            && (r.Some? && query != "" ==>
                  var m := r.value.indices;
                  r.value.score == |m| + 10 * |WordStarts(m, relativePath)| + 5 * |Neighbours(m)|
                    + if Contains(MapChars(text.baseName(relativePath), text.lower), query) then 50 else 0)
  {
    var query := NormalQuery(rawQuery, text);
    var path := NormalPath(relativePath, text);
    if query == "" {
      assert Embeds([], path, query);
      return Some(Match(1, []));
    }
    var matched, score := Scan(relativePath, path, query);
    if |matched| < |query| {
      return None;
    }
    assert Embeds(matched, path, query);
    PointsCount(matched, relativePath);
    IncludesIffContains(MapChars(text.baseName(relativePath), text.lower), query);
    r := Some(Match(score + FileNamePoints(relativePath, query, text), matched));
  }
}
