/** What an install transaction has seen before the process quits, over whole runs. */
module InstallRuns {
  import opened SortedKeys
  import opened UpdateInstall
  import opened Wrappers

  /** Nothing would be lost by restarting into the update now, as far as the process knows. */
  ghost predicate QuietNow(s: State) {
    && s.w.ready && s.w.version != ""
    && s.w.ptys == Sessions([])
    && s.a.invalid == "" && s.a.snapshot.Some? && s.a.snapshot.value.runtimeReady
    && s.a.snapshot.value.lists == [[], [], [], [], [], []]
    && (s.a.received == 0 || s.w.now - s.a.received <= 15000)
  }

  /** The fingerprint of a quiet moment with the given update: that version, ready, and nothing going on. */
  function QuietFingerprint(version: string): Fingerprint {
    Fingerprint(version, true, Some((true, [[], [], [], [], [], []])), multiset{})
  }

  /** The process is quiet, and the installation under way was asked for in such a moment with the same update. */
  ghost predicate MayProceed(s: State) {
    QuietNow(s) && s.i.fingerprint == Some(QuietFingerprint(s.w.version))
  }

  lemma AllEmpty(lists: seq<seq<Key>>)
    requires |lists| == |FIELDS|
    ensures (forall l | l in lists :: l == []) <==> lists == [[], [], [], [], [], []]
  {
    if forall l | l in lists :: l == [] {
      forall i | 0 <= i < |lists| ensures lists[i] == [] { assert lists[i] in lists; }
    }
  }

  /** A preflight of the current state agrees with the fingerprint exactly in a quiet moment. */
  lemma AgreesIff(s: State)
    requires Shape(s)
    ensures Agrees(PreflightOf(CurrentInputs(s)), s.i.fingerprint) <==> MayProceed(s)
  {
    var i := CurrentInputs(s);
    AllowedExactlyWhenQuiet(i);
    if s.a.snapshot.Some? { AllEmpty(s.a.snapshot.value.lists); }
    if Quiet(i, i.version) {
      assert PtysUsable(s.w.ptys) && multiset(s.w.ptys.items) == multiset{};
    }
  }

  ghost predicate IsAnswered(s: State, request: Option<RequestId>) {
    request == None || request.value !in s.a.pending
  }

  /** The first preflight waits for its request, then lets the backup begin exactly in a quiet moment, and gives up otherwise. */
  lemma FirstPreflightPassesIff(s: State)
    requires Shape(s) && s.i.stage.First?
    ensures var t := Step(s, ReadFirst);
            && t.a == s.a && t.w == s.w && t.i.quits == s.i.quits
            && (if !IsAnswered(s, s.i.stage.request) then t == s
                else if MayProceed(s) then t.i == s.i.(stage := BackingUp)
                else t.i.stage == Idle && !t.i.locked)
  {
    hide Agrees, PreflightOf, CurrentInputs, QuietNow;
    AgreesIff(s);
  }

  /** The second preflight waits for its request, then quits exactly in a quiet moment and if the launch works. */
  lemma SecondPreflightQuitsIff(s: State, launched: bool)
    requires Inv(s) && s.i.stage.Second?
    ensures var t := Step(s, ReadSecond(launched));
            && t.a == s.a && t.w == s.w
            && (if !IsAnswered(s, s.i.stage.request) then t == s
                else if MayProceed(s) && launched then
                  t.i.stage == Idle && t.i.locked && t.i.quits == s.i.quits + [QuietFingerprint(s.w.version)]
                else t.i.stage == Idle && !t.i.locked && t.i.quits == s.i.quits)
  {
    hide Agrees, PreflightOf, CurrentInputs, QuietNow;
    AgreesIff(s);
  }

  /** No other event moves an installation past a preflight or quits. */
  lemma OnlyPreflightsPass(s: State, e: Event)
    requires Inv(s)
    ensures var t := Step(s, e);
            && (e != ReadFirst && (t.i.stage.BackingUp? || t.i.stage.Second?) ==> s.i.stage.BackingUp? || s.i.stage.Second?)
            && (t.i.stage != Idle && s.i.stage != Idle ==> t.i.fingerprint == s.i.fingerprint)
            && (!e.ReadSecond? || !s.i.stage.Second? ==> t.i.quits == s.i.quits)
  {
    hide ChecksOf, FingerprintOf;
  }

  // ---------------------------------------------------------------------
  // Runs
  // ---------------------------------------------------------------------

  function Before(events: seq<Event>, i: nat): State
    requires i <= |events|
  {
    After(INITIAL, events[..i])
  }

  lemma {:induction false} AfterOneMore(s: State, events: seq<Event>, e: Event)
    requires Shape(s)
    ensures After(s, events + [e]) == Step(After(s, events), e)
    decreases |events|
  {
    if events == [] {
      assert [] + [e] == [e] && [e][1..] == [];
      assert After(s, [e]) == After(Step(s, e), []);
    } else {
      assert (events + [e])[0] == events[0] && (events + [e])[1..] == events[1..] + [e];
      AfterOneMore(Step(s, events[0]), events[1..], e);
    }
  }

  lemma SplitLast<T>(s: seq<T>)
    requires s != []
    ensures s == s[..|s| - 1] + [s[|s| - 1]]
  {
  }

  lemma LastStep(s: State, events: seq<Event>)
    requires Shape(s) && events != []
    ensures After(s, events) == Step(After(s, events[..|events| - 1]), events[|events| - 1])
  {
    hide Step, After;
    SplitLast(events);
    AfterOneMore(s, events[..|events| - 1], events[|events| - 1]);
  }

  /** Event `i` is the preflight before the backup, and it found a quiet moment with update `version`. */
  ghost predicate PassedFirst(events: seq<Event>, i: int, version: string) {
    && 0 <= i < |events| && events[i] == ReadFirst
    && var s := Before(events, i);
       s.i.stage.First? && IsAnswered(s, s.i.stage.request) && MayProceed(s) && s.w.version == version
  }

  /** Event `j` is the preflight after the backup, it found such a moment too, and the launch worked. */
  ghost predicate PassedSecond(events: seq<Event>, j: int, version: string) {
    && 0 <= j < |events| && events[j] == ReadSecond(true)
    && var s := Before(events, j);
       s.i.stage.Second? && IsAnswered(s, s.i.stage.request) && MayProceed(s) && s.w.version == version
  }

  /** From event `i` to event `j` one transaction was under way. */
  ghost predicate OneTransaction(events: seq<Event>, i: int, j: int) {
    0 <= i < j <= |events| && forall k | i < k <= j :: Before(events, k).i.stage.BackingUp? || Before(events, k).i.stage.Second?
  }

  /** Both preflights of one transaction found a quiet moment. */
  ghost predicate PassedBoth(events: seq<Event>, i: int, j: int, version: string) {
    PassedFirst(events, i, version) && OneTransaction(events, i, j) && PassedSecond(events, j, version)
  }

  lemma EarlierTheSame(events: seq<Event>, n: nat)
    requires n <= |events|
    ensures forall k: nat | k <= n :: Before(events[..n], k) == Before(events, k)
    ensures forall i, version | i < n :: PassedFirst(events[..n], i, version) <==> PassedFirst(events, i, version)
    ensures forall j, version | j < n :: PassedSecond(events[..n], j, version) <==> PassedSecond(events, j, version)
  {
    forall k: nat | k <= n
      ensures Before(events[..n], k) == Before(events, k)
    {
      assert events[..n][..k] == events[..k];
    }
  }

  /** Whoever is past the first preflight went through it in a quiet moment, in the same transaction. */
  lemma {:induction false} PastFirst(events: seq<Event>)
    ensures var s := After(INITIAL, events);
            s.i.stage.BackingUp? || s.i.stage.Second? ==>
              s.i.fingerprint.Some? && exists i :: PassedFirst(events, i, s.i.fingerprint.value.version) && OneTransaction(events, i, |events|)
    decreases |events|
  {
    hide Step;
    if events != [] {
      var n := |events| - 1;
      var before, e, after := Before(events, n), events[n], After(INITIAL, events);
      hide Step, MayProceed;
      PastFirst(events[..n]);
      AfterKeeps(INITIAL, events[..n]);
      LastStep(INITIAL, events);
      EarlierTheSame(events, n);
      OnlyPreflightsPass(before, e);
      assert events[..n + 1] == events && Before(events, n + 1) == after;
      if after.i.stage.BackingUp? || after.i.stage.Second? {
        if before.i.stage.BackingUp? || before.i.stage.Second? {
          var i :| PassedFirst(events[..n], i, before.i.fingerprint.value.version) && OneTransaction(events[..n], i, n);
          assert OneTransaction(events, i, n + 1);
        } else {
          NewlyPast(before, e);
          assert OneTransaction(events, n, n + 1) && PassedFirst(events, n, before.w.version);
        }
      }
    }
  }

  lemma NewlyPast(s: State, e: Event)
    requires Shape(s) && !s.i.stage.BackingUp? && !s.i.stage.Second?
    requires Step(s, e).i.stage.BackingUp? || Step(s, e).i.stage.Second?
    ensures e == ReadFirst && s.i.stage.First? && IsAnswered(s, s.i.stage.request) && MayProceed(s)
    ensures Step(s, e).i.fingerprint == Some(QuietFingerprint(s.w.version))
  {
    hide ChecksOf, FingerprintOf, PreflightOf;
    if s.i.stage.First? { FirstPreflightPassesIff(s); }
  }

  /**
   * Main result: a process quits at most once, and has quit exactly if two
   * preflights of one transaction, before and after its backup, both found the
   * same update ready and nothing going on.
   */
  lemma {:induction false} QuitsIffTwoQuietMoments(events: seq<Event>)
    ensures var quits := After(INITIAL, events).i.quits;
            && |quits| <= 1
            && (quits != [] <==> exists i, j, version :: PassedBoth(events, i, j, version))
            && (quits != [] ==> exists i, j :: PassedBoth(events, i, j, quits[0].version))
    decreases |events|
  {
    hide PassedFirst, OneTransaction, QuietNow, Step;
    if events != [] {
      hide Step, MayProceed, PassedBoth, IsAnswered;
      var n := |events| - 1;
      var before, e := Before(events, n), events[n];
      AfterKeeps(INITIAL, events[..n]);
      QuitsIffTwoQuietMoments(events[..n]);
      LastStep(INITIAL, events);
      PairsOneMore(events);
      PassedNowIff(events);
      OnlyPreflightsPass(before, e);
      if e.ReadSecond? && before.i.stage.Second? { SecondPreflightQuitsIff(before, e.launched); }
      QuitsSnoc(events);
      var quits := After(INITIAL, events).i.quits;
      if before.i.quits != [] {
        assert quits == before.i.quits;
        var i, j :| PassedBoth(events[..n], i, j, quits[0].version);
        PassedBothBounds(events[..n], i, j, quits[0].version);
      } else if quits != [] {
        var i, version :| PassedBoth(events, i, n, version);
        assert version == before.w.version == quits[0].version;
      }
    }
  }

  lemma PassedBothBounds(events: seq<Event>, i: int, j: int, version: string)
    requires PassedBoth(events, i, j, version)
    ensures 0 <= i < j < |events|
  {
  }

  /** The pairs of a run are those of the run before its last event, and those that this event completes. */
  lemma QuitsSnoc(events: seq<Event>)
    requires events != []
    ensures var n := |events| - 1;
            (exists i, j, version :: PassedBoth(events, i, j, version)) <==>
              || (exists i, j, version :: PassedBoth(events[..n], i, j, version))
              || (exists i, version :: PassedBoth(events, i, n, version))
  {
    hide PassedBoth;
    var n := |events| - 1;
    PairsOneMore(events);
    if i, j, version :| PassedBoth(events, i, j, version) {
      PassedBothBounds(events, i, j, version);
      if j < n { assert PassedBoth(events[..n], i, j, version); }
    }
    if i, j, version :| PassedBoth(events[..n], i, j, version) {
      PassedBothBounds(events[..n], i, j, version);
      assert PassedBoth(events, i, j, version);
    }
  }

  lemma PairsOneMore(events: seq<Event>)
    requires events != []
    ensures var n := |events| - 1;
            forall i, j, version | j < n :: PassedBoth(events[..n], i, j, version) <==> PassedBoth(events, i, j, version)
  {
    var n := |events| - 1;
    hide PassedFirst, PassedSecond, Before;
    EarlierTheSame(events, n);
    forall i, j, version | j < n
      ensures PassedBoth(events[..n], i, j, version) <==> PassedBoth(events, i, j, version)
    {
      assert 0 <= i < j ==> (PassedFirst(events[..n], i, version) <==> PassedFirst(events, i, version));
      assert forall k: nat | k <= n :: Before(events[..n], k) == Before(events, k);
    }
  }

  /** The last event completes a pair exactly if it is a second preflight that passes. */
  lemma PassedNowIff(events: seq<Event>)
    requires events != []
    ensures var n := |events| - 1;
            var s := Before(events, n);
            && (forall i, version | PassedBoth(events, i, n, version) :: version == s.w.version)
            && ((exists i, version :: PassedBoth(events, i, n, version)) <==>
                  events[n] == ReadSecond(true) && s.i.stage.Second? && IsAnswered(s, s.i.stage.request) && MayProceed(s))
  {
    var n := |events| - 1;
    var s := Before(events, n);
    PastFirst(events[..n]);
    EarlierTheSame(events, n);
    if events[n] == ReadSecond(true) && s.i.stage.Second? && IsAnswered(s, s.i.stage.request) && MayProceed(s) {
      var i :| PassedFirst(events[..n], i, s.i.fingerprint.value.version) && OneTransaction(events[..n], i, n);
      assert PassedBoth(events, i, n, s.w.version);
    }
  }
}
