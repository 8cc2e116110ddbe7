/** The provider history: sorted, deduplicated and truncated when read, rewritten when a profile is saved. */
module History {
  import opened StableSort

  const HISTORY_MAX := 16

  /** `details` stands for all fields that neither identify nor order an entry. */
  datatype Entry = Entry(provider: string, baseUrl: string, model: string, updatedAt: int, details: string)

  type Identity = (string, string)

  /**
   * `identity` is the normalized provider and base URL; `project` is what reading
   * does to a stored entry.
   */
  datatype Rules = Rules(identity: Entry -> Identity, project: Entry -> Entry)

  /** Reading keeps identity and time, and reading twice is reading once. */
  ghost predicate Lawful(rules: Rules) {
    forall e ::
      var p := rules.project(e);
      rules.identity(p) == rules.identity(e) && p.updatedAt == e.updatedAt && rules.project(p) == p
  }

  function Time(e: Entry): int { e.updatedAt }

  function ProjectAll(s: seq<Entry>, rules: Rules): seq<Entry> {
    seq(|s|, i requires 0 <= i < |s| => rules.project(s[i]))
  }

  function Others(s: seq<Entry>, id: Identity, rules: Rules): seq<Entry>
    decreases |s|
  {
    if s == [] then []
    else if rules.identity(s[0]) == id then Others(s[1..], id, rules)
    else [s[0]] + Others(s[1..], id, rules)
  }

  /** The first entry of every identity. */
  function Dedupe(s: seq<Entry>, rules: Rules): seq<Entry>
    decreases |s|
  {
    if s == [] then [] else [s[0]] + Others(Dedupe(s[1..], rules), rules.identity(s[0]), rules)
  }

  function Take(s: seq<Entry>, n: nat): seq<Entry> { if |s| > n then s[..n] else s }

  /** `_llm_history`. */
  function Read(stored: seq<Entry>, rules: Rules): seq<Entry> {
    Take(Dedupe(SortDesc(ProjectAll(stored, rules), Time), rules), HISTORY_MAX)
  }

  predicate Saveable(e: Entry) { e.baseUrl != "" || e.model != "" }

  /** `_upsert_llm_history`. */
  function Upsert(stored: seq<Entry>, e: Entry, rules: Rules): seq<Entry> {
    if !Saveable(e) then stored
    else Take([e] + Others(Read(stored, rules), rules.identity(e), rules), HISTORY_MAX)
  }

  function UpsertAll(stored: seq<Entry>, log: seq<Entry>, rules: Rules): seq<Entry>
    decreases |log|
  {
    if log == [] then stored else UpsertAll(Upsert(stored, log[0], rules), log[1..], rules)
  }

  // ---------------------------------------------------------------------
  // Loops
  // ---------------------------------------------------------------------

  /** The entries of `s` whose identity is not in `seen`. */
  function Unseen(s: seq<Entry>, seen: set<Identity>, rules: Rules): seq<Entry>
    decreases |s|
  {
    if s == [] then []
    else if rules.identity(s[0]) in seen then Unseen(s[1..], seen, rules)
    else [s[0]] + Unseen(s[1..], seen, rules)
  }

  lemma {:induction false} UnseenNone(s: seq<Entry>, rules: Rules)
    ensures Unseen(s, {}, rules) == s
    decreases |s|
  {
    if s != [] {
      UnseenNone(s[1..], rules);
    }
  }

  lemma {:induction false} UnseenOthers(s: seq<Entry>, seen: set<Identity>, id: Identity, rules: Rules)
    ensures Unseen(Others(s, id, rules), seen, rules) == Unseen(s, seen + {id}, rules)
    decreases |s|
  {
    if s != [] {
      UnseenOthers(s[1..], seen, id, rules);
    }
  }

  lemma {:induction false} UnseenSeen(s: seq<Entry>, seen: set<Identity>, id: Identity, rules: Rules)
    requires id in seen
    ensures Unseen(Others(s, id, rules), seen, rules) == Unseen(s, seen, rules)
    decreases |s|
  {
    UnseenOthers(s, seen, id, rules);
    assert seen + {id} == seen;
  }

  /** The loop with its `seen` set. */
  method DedupeBySeen(s: seq<Entry>, rules: Rules) returns (history: seq<Entry>)
    ensures history == Dedupe(s, rules)
  {
    history := [];
    var seen: set<Identity> := {};
    UnseenNone(Dedupe(s, rules), rules);
    assert s[0..] == s;
    for i := 0 to |s|
      invariant history + Unseen(Dedupe(s[i..], rules), seen, rules) == Dedupe(s, rules)
    {
      var e := s[i];
      var id := rules.identity(e);
      assert s[i..][0] == e && s[i..][1..] == s[i + 1..];
      var rest := Dedupe(s[i + 1..], rules);
      assert ([e] + Others(rest, id, rules))[1..] == Others(rest, id, rules);
      if id in seen {
        UnseenSeen(rest, seen, id, rules);
      } else {
        UnseenOthers(rest, seen, id, rules);
        seen := seen + {id};
        history := history + [e];
      }
    }
  }

  /** The settings section that holds the stored history. */
  class Settings {
    var providerHistory: seq<Entry>

    constructor ()
      ensures providerHistory == []
    {
      providerHistory := [];
    }

    method ReadHistory(rules: Rules) returns (history: seq<Entry>)
      ensures history == Read(providerHistory, rules)
    {
      var normalized: seq<Entry> := [];
      for i := 0 to |providerHistory|
        invariant normalized == ProjectAll(providerHistory[..i], rules)
      {
        normalized := normalized + [rules.project(providerHistory[i])];
      }
      assert providerHistory[..|providerHistory|] == providerHistory;
      history := DedupeBySeen(SortDesc(normalized, Time), rules);
      history := Take(history, HISTORY_MAX);
    }

    method Save(e: Entry, rules: Rules)
      modifies this
      ensures providerHistory == Upsert(old(providerHistory), e, rules)
      ensures e.baseUrl == "" && e.model == "" ==> providerHistory == old(providerHistory)
      ensures e.baseUrl != "" || e.model != "" ==> providerHistory != [] && providerHistory[0] == e
    {
      if !Saveable(e) {
        return;
      }
      var history := ReadHistory(rules);
      var merged := [e];
      for i := 0 to |history|
        invariant merged + Others(history[i..], rules.identity(e), rules) == [e] + Others(history, rules.identity(e), rules)
      {
        assert history[i..][0] == history[i] && history[i..][1..] == history[i + 1..];
        if rules.identity(history[i]) != rules.identity(e) {
          merged := merged + [history[i]];
        }
      }
      providerHistory := Take(merged, HISTORY_MAX);
    }
  }

  // ---------------------------------------------------------------------
  // What a read-back history looks like
  // ---------------------------------------------------------------------

  predicate DistinctIdentities(s: seq<Entry>, rules: Rules) {
    forall i, j | 0 <= i < j < |s| :: rules.identity(s[i]) != rules.identity(s[j])
  }

  lemma {:induction false} OthersMembers(s: seq<Entry>, id: Identity, rules: Rules)
    ensures forall e :: e in Others(s, id, rules) <==> e in s && rules.identity(e) != id
    ensures |Others(s, id, rules)| <= |s|
    decreases |s|
  {
    if s != [] {
      OthersMembers(s[1..], id, rules);
      assert s == [s[0]] + s[1..];
    }
  }

  lemma {:induction false} OthersKeepsOrder(s: seq<Entry>, id: Identity, rules: Rules)
    requires Descending(s, Time) && DistinctIdentities(s, rules)
    ensures Descending(Others(s, id, rules), Time) && DistinctIdentities(Others(s, id, rules), rules)
    decreases |s|
  {
    if s != [] {
      OthersKeepsOrder(s[1..], id, rules);
      var rest := Others(s[1..], id, rules);
      OthersMembers(s[1..], id, rules);
      forall i | 0 <= i < |rest|
        ensures Time(s[0]) >= Time(rest[i]) && rules.identity(s[0]) != rules.identity(rest[i])
      {
        assert rest[i] in rest;
        var j :| 0 <= j < |s[1..]| && s[1..][j] == rest[i];
        assert s[j + 1] == rest[i];
      }
    }
  }

  lemma {:induction false} DedupeMembers(s: seq<Entry>, rules: Rules)
    ensures forall e :: e in Dedupe(s, rules) ==> e in s
    decreases |s|
  {
    if s != [] {
      DedupeMembers(s[1..], rules);
      OthersMembers(Dedupe(s[1..], rules), rules.identity(s[0]), rules);
    }
  }

  lemma {:induction false} DedupeKeepsOrder(s: seq<Entry>, rules: Rules)
    requires Descending(s, Time)
    ensures Descending(Dedupe(s, rules), Time) && DistinctIdentities(Dedupe(s, rules), rules)
    decreases |s|
  {
    if s != [] {
      var rest := Dedupe(s[1..], rules);
      var id := rules.identity(s[0]);
      DedupeKeepsOrder(s[1..], rules);
      OthersKeepsOrder(rest, id, rules);
      OthersMembers(rest, id, rules);
      DedupeMembers(s[1..], rules);
      var kept := Others(rest, id, rules);
      forall i | 0 <= i < |kept|
        ensures Time(s[0]) >= Time(kept[i]) && id != rules.identity(kept[i])
      {
        assert kept[i] in kept;
        var j :| 0 <= j < |s[1..]| && s[1..][j] == kept[i];
        assert s[j + 1] == kept[i];
      }
    }
  }

  lemma {:induction false} DedupeOfDistinct(s: seq<Entry>, rules: Rules)
    requires DistinctIdentities(s, rules)
    ensures Dedupe(s, rules) == s
    decreases |s|
  {
    if s != [] {
      DedupeOfDistinct(s[1..], rules);
      OthersOfAbsent(s[1..], rules.identity(s[0]), rules);
    }
  }

  lemma {:induction false} OthersOfAbsent(s: seq<Entry>, id: Identity, rules: Rules)
    requires forall i | 0 <= i < |s| :: rules.identity(s[i]) != id
    ensures Others(s, id, rules) == s
    decreases |s|
  {
    if s != [] {
      OthersOfAbsent(s[1..], id, rules);
    }
  }

  ghost predicate Projected(s: seq<Entry>, rules: Rules) { forall e | e in s :: rules.project(e) == e }

  /** A history is sorted, has one entry an identity, and is left alone by another read. */
  ghost predicate Tidy(s: seq<Entry>, rules: Rules) {
    Descending(s, Time) && DistinctIdentities(s, rules) && Projected(s, rules)
  }

  lemma ReadIsTidy(stored: seq<Entry>, rules: Rules)
    requires Lawful(rules)
    ensures Tidy(Read(stored, rules), rules) && |Read(stored, rules)| <= HISTORY_MAX
  {
    var all := ProjectAll(stored, rules);
    var sorted := SortDesc(all, Time);
    SortIsDescending(all, Time);
    DedupeKeepsOrder(sorted, rules);
    DedupeMembers(sorted, rules);
    forall e | e in Read(stored, rules)
      ensures rules.project(e) == e
    {
      assert e in sorted;
      SortSameItem(all, Time, e);
    }
  }

  /** Reading what is sorted and distinct only projects it. */
  lemma ReadSorted(s: seq<Entry>, rules: Rules)
    requires Lawful(rules) && Descending(s, Time) && DistinctIdentities(s, rules)
    ensures Read(s, rules) == Take(ProjectAll(s, rules), HISTORY_MAX)
  {
    var all := ProjectAll(s, rules);
    assert Descending(all, Time) && DistinctIdentities(all, rules);
    SortOfSorted(all, Time);
    DedupeOfDistinct(all, rules);
  }

  lemma ProjectTidy(s: seq<Entry>, rules: Rules)
    requires Projected(s, rules)
    ensures ProjectAll(s, rules) == s
  {
    forall i | 0 <= i < |s|
      ensures rules.project(s[i]) == s[i]
    {
      assert s[i] in s;
    }
  }

  ghost predicate NoLaterThan(s: seq<Entry>, e: Entry) { forall i | 0 <= i < |s| :: s[i].updatedAt <= e.updatedAt }

  /** What a save does to the history that is read back. */
  lemma ReadAfterUpsert(stored: seq<Entry>, e: Entry, rules: Rules)
    requires Lawful(rules) && Saveable(e) && NoLaterThan(Others(Read(stored, rules), rules.identity(e), rules), e)
    ensures Read(Upsert(stored, e, rules), rules) ==
            Take([rules.project(e)] + Others(Read(stored, rules), rules.identity(e), rules), HISTORY_MAX)
  {
    var history := Read(stored, rules);
    var rest := Others(history, rules.identity(e), rules);
    ReadIsTidy(stored, rules);
    OthersKeepsOrder(history, rules.identity(e), rules);
    OthersMembers(history, rules.identity(e), rules);
    forall i | 0 <= i < |rest|
      ensures rules.identity(rest[i]) != rules.identity(e)
    {
      assert rest[i] in rest;
    }
    InFront(e, rest, rules);
    ReadSorted(Take([e] + rest, HISTORY_MAX), rules);
    ProjectTidy(rest, rules);
    ProjectTake([e] + rest, HISTORY_MAX, rules);
    assert ProjectAll([e] + rest, rules) == [rules.project(e)] + ProjectAll(rest, rules);
  }

  lemma InFront(e: Entry, rest: seq<Entry>, rules: Rules)
    requires Descending(rest, Time) && DistinctIdentities(rest, rules) && NoLaterThan(rest, e)
    requires forall i | 0 <= i < |rest| :: rules.identity(rest[i]) != rules.identity(e)
    ensures Descending(Take([e] + rest, HISTORY_MAX), Time) && DistinctIdentities(Take([e] + rest, HISTORY_MAX), rules)
  {
  }

  lemma ProjectTake(s: seq<Entry>, n: nat, rules: Rules)
    ensures ProjectAll(Take(s, n), rules) == Take(ProjectAll(s, rules), n)
  {
  }

  // ---------------------------------------------------------------------
  // The recency list
  // ---------------------------------------------------------------------

  /** The saves that count, most recent first, as they are read back. */
  function Recency(log: seq<Entry>, rules: Rules): seq<Entry>
    decreases |log|
  {
    if log == [] then []
    else Recency(log[1..], rules) + if Saveable(log[0]) then [rules.project(log[0])] else []
  }

  ghost predicate Nondecreasing(log: seq<Entry>) {
    forall i, j | 0 <= i < j < |log| :: log[i].updatedAt <= log[j].updatedAt
  }

  lemma {:induction false} TakeOthers(s: seq<Entry>, n: nat, id: Identity, rules: Rules)
    requires DistinctIdentities(s, rules)
    ensures Take(Others(Take(s, n + 1), id, rules), n) == Take(Others(s, id, rules), n)
    decreases |s|
  {
    if s != [] && |s| > n + 1 {
      var rest := s[1..];
      assert Take(s, n + 1) == [s[0]] + Take(rest, n);
      assert ([s[0]] + Take(rest, n))[1..] == Take(rest, n);
      if rules.identity(s[0]) == id {
        OthersOfAbsent(rest, id, rules);
        OthersOfAbsent(Take(rest, n), id, rules);
      } else if n > 0 {
        TakeOthers(rest, n - 1, id, rules);
      }
    }
  }

  lemma {:induction false} DedupeDistinct(s: seq<Entry>, rules: Rules)
    ensures DistinctIdentities(Dedupe(s, rules), rules)
    decreases |s|
  {
    if s != [] {
      var rest := Dedupe(s[1..], rules);
      var id := rules.identity(s[0]);
      DedupeDistinct(s[1..], rules);
      OthersDistinct(rest, id, rules);
      OthersMembers(rest, id, rules);
      var kept := Others(rest, id, rules);
      forall i | 0 <= i < |kept|
        ensures rules.identity(kept[i]) != id
      {
        assert kept[i] in kept;
      }
    }
  }

  lemma {:induction false} OthersDistinct(s: seq<Entry>, id: Identity, rules: Rules)
    requires DistinctIdentities(s, rules)
    ensures DistinctIdentities(Others(s, id, rules), rules)
    decreases |s|
  {
    if s != [] {
      OthersDistinct(s[1..], id, rules);
      OthersMembers(s[1..], id, rules);
      var rest := Others(s[1..], id, rules);
      forall i | 0 <= i < |rest|
        ensures rules.identity(rest[i]) != rules.identity(s[0])
      {
        assert rest[i] in rest;
        var j :| 0 <= j < |s[1..]| && s[1..][j] == rest[i];
        assert s[j + 1] == rest[i];
      }
    }
  }

  /** Truncating before an entry is put in front makes no difference after the next truncation. */
  lemma TruncateEarly(e: Entry, s: seq<Entry>, rules: Rules)
    ensures Take([e] + Others(Take(Dedupe(s, rules), HISTORY_MAX), rules.identity(e), rules), HISTORY_MAX) ==
            Take(Dedupe([e] + s, rules), HISTORY_MAX)
  {
    var id := rules.identity(e);
    var d := Dedupe(s, rules);
    DedupeDistinct(s, rules);
    TakeOthers(d, HISTORY_MAX - 1, id, rules);
    assert ([e] + s)[1..] == s;
    assert Dedupe([e] + s, rules) == [e] + Others(d, id, rules);
    TakeFront(e, Others(Take(d, HISTORY_MAX), id, rules), HISTORY_MAX - 1);
    TakeFront(e, Others(d, id, rules), HISTORY_MAX - 1);
  }

  lemma TakeFront(e: Entry, s: seq<Entry>, n: nat)
    ensures Take([e] + s, n + 1) == [e] + Take(s, n)
  {
  }

  /** The history after some saves is read back no later than the last of them. */
  ghost predicate FollowedBy(history: seq<Entry>, log: seq<Entry>) {
    forall i, j | 0 <= i < |history| && 0 <= j < |log| :: history[i].updatedAt <= log[j].updatedAt
  }

  lemma StillFollowed(history: seq<Entry>, log: seq<Entry>)
    requires log != [] && Nondecreasing(log) && forall x | x in history :: x.updatedAt <= log[0].updatedAt
    ensures FollowedBy(history, log[1..])
  {
    forall i, j | 0 <= i < |history| && 0 <= j < |log[1..]|
      ensures history[i].updatedAt <= log[1..][j].updatedAt
    {
      assert history[i] in history && log[1..][j] == log[j + 1];
    }
  }

  /**
   * Main result: while the clock does not run backwards, the history read back
   * after any saves is the recency list of the saved profiles, one an identity,
   * on top of what was there before, cut at `HISTORY_MAX`.
   */
  lemma {:induction false} HistoryIsRecencyList(stored: seq<Entry>, log: seq<Entry>, base: seq<Entry>, rules: Rules)
    requires Lawful(rules) && Nondecreasing(log)
    requires FollowedBy(Read(stored, rules), log)
    requires Read(stored, rules) == Take(Dedupe(base, rules), HISTORY_MAX)
    ensures Read(UpsertAll(stored, log, rules), rules) == Take(Dedupe(Recency(log, rules) + base, rules), HISTORY_MAX)
    decreases |log|
  {
    if log == [] {
      assert Recency(log, rules) + base == base;
    } else {
      var e := log[0];
      var next := Upsert(stored, e, rules);
      var nextBase := if Saveable(e) then [rules.project(e)] + base else base;
      if Saveable(e) {
        OneSave(stored, e, base, rules);
        StillFollowed(Read(next, rules), log);
      }
      HistoryIsRecencyList(next, log[1..], nextBase, rules);
      assert Recency(log, rules) + base == Recency(log[1..], rules) + nextBase;
    }
  }

  lemma OneSave(stored: seq<Entry>, e: Entry, base: seq<Entry>, rules: Rules)
    requires Lawful(rules) && Saveable(e)
    requires forall i | 0 <= i < |Read(stored, rules)| :: Read(stored, rules)[i].updatedAt <= e.updatedAt
    requires Read(stored, rules) == Take(Dedupe(base, rules), HISTORY_MAX)
    ensures Read(Upsert(stored, e, rules), rules) == Take(Dedupe([rules.project(e)] + base, rules), HISTORY_MAX)
    ensures forall x | x in Read(Upsert(stored, e, rules), rules) :: x.updatedAt <= e.updatedAt
  {
    hide Others;
    var id := rules.identity(e);
    var rest := Others(Read(stored, rules), id, rules);
    OthersMembers(Read(stored, rules), id, rules);
    forall i | 0 <= i < |rest|
      ensures rest[i].updatedAt <= e.updatedAt
    {
      assert rest[i] in rest;
    }
    ReadAfterUpsert(stored, e, rules);
    assert rules.identity(rules.project(e)) == id;
    TruncateEarly(rules.project(e), base, rules);
  }

  /** Main result: starting from nothing, the history is the most recently saved profiles, in recency order. */
  lemma HistoryOfSaves(log: seq<Entry>, rules: Rules)
    requires Lawful(rules) && Nondecreasing(log)
    ensures Read(UpsertAll([], log, rules), rules) == Take(Dedupe(Recency(log, rules), rules), 16)
  {
    assert Read([], rules) == [];
    HistoryIsRecencyList([], log, [], rules);
    assert Recency(log, rules) + [] == Recency(log, rules);
  }

  /** A profile just saved is read back first exactly if nothing else in the history claims a later time. */
  lemma SavedComesFirstIff(stored: seq<Entry>, e: Entry, rules: Rules)
    requires Lawful(rules) && Saveable(e)
    ensures var after := Read(Upsert(stored, e, rules), rules);
            after != [] &&
            (after[0] == rules.project(e) <==> NoLaterThan(Others(Read(stored, rules), rules.identity(e), rules), e))
  {
    hide SortDesc, Others, Saveable;
    var rest := Others(Read(stored, rules), rules.identity(e), rules);
    if NoLaterThan(rest, e) {
      ReadAfterUpsert(stored, e, rules);
    } else {
      var i :| 0 <= i < |rest| && rest[i].updatedAt > e.updatedAt;
      ReadIsTidy(stored, rules);
      OthersKeepsOrder(Read(stored, rules), rules.identity(e), rules);
      var saved := Upsert(stored, e, rules);
      assert saved[1] == rest[0] && rest[0].updatedAt > e.updatedAt;
      var all := ProjectAll(saved, rules);
      assert all[1].updatedAt > e.updatedAt;
      SortIsDescending(all, Time);
      SortSameItem(all, Time, all[1]);
      SortKeepsItems(all, Time);
      var sorted := SortDesc(all, Time);
      var k :| 0 <= k < |sorted| && sorted[k] == all[1];
      assert Time(sorted[0]) >= Time(sorted[k]);
    }
  }
}
