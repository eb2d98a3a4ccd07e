/** What the object store promises over every run, with crashes between any two stages and inside recovery. */
module StoreSafety {
  import opened ByteStrings
  import opened Wire
  import opened Wal
  import opened ObjectStore
  import opened StoreInvariant
  import opened StoreRecovery

  // ----- steps of other keys -----

  /** The key that a step of an operation works on. */
  function KeyOf(a: Action): Option<Str> {
    match a
    case StartPut(k, _, _, _) => Some(k)
    case StartDelete(k) => Some(k)
    case LogBegin(k) => Some(k)
    case Place(k) => Some(k)
    case Write(k) => Some(k)
    case Tombstone(k) => Some(k)
    case Finish(k) => Some(k)
    case _ => None
  }

  /** Nothing that matters to key k changed. */
  predicate Untouched(cfg: Config, s: Store, t: Store, k: Str) {
    && s.phase.Up? && t.phase.Up?
    && RowOf(t, k) == RowOf(s, k) && FileOf(cfg, t, k) == FileOf(cfg, s, k) && OpenAll(t, k) == OpenAll(s, k)
    && (k in t.flights <==> k in s.flights) && (k in s.flights ==> t.flights[k] == s.flights[k])
  }

  lemma OthersUntouched(cfg: Config, s: Store, a: Action, k: Str)
    requires Inv(cfg, s) && DigestsDiffer(cfg) && Enabled(cfg, s, a) && k in cfg.keys
    requires KeyOf(a).Some? && KeyOf(a).value != k
    ensures Untouched(cfg, s, Apply(cfg, s, a), k)
  {
    hide Inv, Open, Done, SeqsOK;
    var j := KeyOf(a).value;
    if j in s.flights {
      FlightKey(cfg, s, j);
      KeyPart(cfg, s, j);
      if a.LogBegin? {
        NotDone(s, j);
        BeginAppended(s.wal, BeginOf(j, s.flights[j]), k);
      }
      if a.Finish? {
        FinishOpen(cfg, s, j, k);
      }
    }
  }

  lemma StepAt(cfg: Config, states: seq<Store>, acts: seq<Action>, i: nat)
    requires IsRun(cfg, states, acts) && i < |acts|
    ensures |states| == |acts| + 1 && Enabled(cfg, states[i], acts[i]) && states[i + 1] == Apply(cfg, states[i], acts[i])
  {
  }

  lemma FirstIsEmpty(cfg: Config, states: seq<Store>, acts: seq<Action>)
    requires IsRun(cfg, states, acts)
    ensures |states| == |acts| + 1 && states[0] == EMPTY_STORE
  {
  }

  // ----- acknowledged operations are not undone -----

  /**
    The rows that callers may expect of key k, up to creation time and request id. A completed
    operation leaves one; a crash in the middle of an operation adds what it would have left; and an
    open settles which of the two it is.
   */
  function Expected(s: Store, a: Action, k: Str, was: set<Option<Row>>): set<Option<Row>> {
    if a == Finish(k) && k in s.flights then {Post(s.flights[k])}
    else if a.Crash? && s.phase.Up? && k in s.flights then was + {Post(s.flights[k])}
    else if a.Checkpoint? then was * {Core(RowOf(s, k))}
    else was
  }

  function ExpectedAt(states: seq<Store>, acts: seq<Action>, i: nat, k: Str): set<Option<Row>>
    requires i <= |acts| && i <= |states|
  {
    if i == 0 then {None} else Expected(states[i - 1], acts[i - 1], k, ExpectedAt(states, acts, i - 1, k))
  }

  /** While the store is up exactly one row is expected; while it is down, what recovery will reach is among them. */
  predicate Kept(cfg: Config, s: Store, k: Str, expected: set<Option<Row>>) {
    if s.phase.Up? then
      expected == {if k in s.flights then Pre(s.flights[k]) else Core(RowOf(s, k))}
    else
      Position(s) <= |s.wal| && Outcome(cfg, s, k) in expected && |OpenAll(s, k)| <= 1
  }

  lemma CrashKept(cfg: Config, s: Store, k: Str, expected: set<Option<Row>>)
    requires Inv(cfg, s) && k in cfg.keys && s.phase.Up? && !Stale(s, k) && Kept(cfg, s, k, expected)
    ensures Kept(cfg, Apply(cfg, s, Crash), k, Expected(s, Crash, k, expected))
  {
    hide Inv, Open, Done, Redo, LogOK, FlightOK;
    KeyPart(cfg, s, k);
    var t := Apply(cfg, s, Crash);
    assert Position(s) == Position(t) == 0;
    assert Ahead(t, k) == Ahead(s, k);
    assert OpenAll(t, k) == OpenAll(s, k);
    if k in s.flights {
      FlightOutcome(cfg, s, k);
    } else {
      IdleOutcomeIff(cfg, s, k);
    }
  }

  lemma RestartKept(cfg: Config, s: Store, k: Str, row0: Option<Row>, expected: set<Option<Row>>)
    requires Inv(cfg, s) && k in cfg.keys && s.phase.Down? && Position(s) <= |s.wal| && Midway(cfg, s, k, row0)
    requires Kept(cfg, s, k, expected)
    ensures Kept(cfg, Apply(cfg, s, Crash), k, expected)
  {
    hide Inv, Open, Done, Redo, LogOK, FlightOK, HasDelete;
    KeyPart(cfg, s, k);
    RestartIff(cfg, s, k, row0);
    OpenIsBehindAhead(s, k);
    assert OpenAll(Apply(cfg, s, Crash), k) == OpenAll(s, k);
    if Ahead(s, k) == [] && HasDelete(OpenAll(s, k)) {
      assert Behind(s, k) == OpenAll(s, k);
      OneDelete(Behind(s, k));
      DeadStaysDead(cfg, row0, FileOf(cfg, s, k), Behind(s, k));
    }
  }

  lemma OneDelete(open: seq<WalRecord>)
    requires HasDelete(open) && |open| <= 1
    ensures open != [] && Deletes(open)
  {
  }

  lemma RecoverKept(cfg: Config, s: Store, a: Action, k: Str, expected: set<Option<Row>>)
    requires Shape(cfg, s) && Enabled(cfg, s, a) && (a.RecoverOne? || a.Checkpoint?) && Kept(cfg, s, k, expected)
    ensures Kept(cfg, Apply(cfg, s, a), k, Expected(s, a, k, expected))
  {
    hide Open, Done, Redo, Redone;
    if a.RecoverOne? {
      RecoverOneOutcome(cfg, s, a.now, k);
      assert OpenAll(Apply(cfg, s, a), k) == OpenAll(s, k);
    } else {
      CheckpointOutcome(cfg, s, k);
      assert expected * {Core(RowOf(s, k))} == {Core(RowOf(s, k))};
    }
  }

  lemma OperationKept(cfg: Config, s: Store, a: Action, k: Str, expected: set<Option<Row>>)
    requires Inv(cfg, s) && DigestsDiffer(cfg) && Enabled(cfg, s, a) && k in cfg.keys && KeyOf(a).Some?
    requires Kept(cfg, s, k, expected)
    ensures Kept(cfg, Apply(cfg, s, a), k, Expected(s, a, k, expected))
  {
    hide Inv, OpenAll, Outcome, LogOK, Shape, SeqsOK;
    KeyPart(cfg, s, k);
    if KeyOf(a).value != k {
      OthersUntouched(cfg, s, a, k);
    }
  }

  /** At each crash, no delete on k that returned NotFound since the last open is left in the log. */
  predicate Calm(states: seq<Store>, acts: seq<Action>, k: Str) {
    forall i :: 0 <= i < |acts| && i < |states| && acts[i].Crash? && states[i].phase.Up? ==> !Stale(states[i], k)
  }

  /** The row that a recovery under way started from. */
  lemma {:induction false} RecoveryBase(cfg: Config, states: seq<Store>, acts: seq<Action>, i: nat, k: Str) returns (row0: Option<Row>)
    requires IsRun(cfg, states, acts) && DigestsDiffer(cfg) && i < |states| && states[i].phase.Down?
    ensures Position(states[i]) <= |states[i].wal| && Midway(cfg, states[i], k, row0)
  {
    hide IsRun, Inv, Midway, Apply;
    RunShape(cfg, states, acts, i);
    FirstIsEmpty(cfg, states, acts);
    StepAt(cfg, states, acts, i - 1);
    var s, a := states[i - 1], acts[i - 1];
    DownStep(cfg, s, a);
    if a.Crash? {
      row0 := Core(RowOf(s, k));
      CrashIsMidway(cfg, s, k);
    } else {
      row0 := RecoveryBase(cfg, states, acts, i - 1, k);
      RecoverOneMidway(cfg, s, a.now, k, row0);
    }
  }

  lemma RunShape(cfg: Config, states: seq<Store>, acts: seq<Action>, i: nat)
    requires IsRun(cfg, states, acts) && DigestsDiffer(cfg) && i < |states|
    ensures Shape(cfg, states[i])
  {
    hide IsRun;
    RunInv(cfg, states, acts, i);
  }

  lemma DownStep(cfg: Config, s: Store, a: Action)
    requires Enabled(cfg, s, a) && Apply(cfg, s, a).phase.Down?
    ensures a.Crash? || (a.RecoverOne? && s.phase.Down?)
  {
  }

  /**
    What callers were told still holds. While the store is up, exactly one row is expected of a key: the
    present one if the key is idle, and the one before an operation under way. While it is down, recovery
    reaches one of the expected rows: what the last completed operation or the last open left, or what an
    operation that a crash has cut since would have left.
   */
  lemma {:induction false} AcknowledgedKept(cfg: Config, states: seq<Store>, acts: seq<Action>, i: nat, k: Str)
    requires IsRun(cfg, states, acts) && DigestsDiffer(cfg) && i < |states| && k in cfg.keys && Calm(states, acts, k)
    ensures |states| == |acts| + 1 && Kept(cfg, states[i], k, ExpectedAt(states, acts, i, k))
  {
    hide IsRun, Inv, Kept, Expected, Apply, Enabled, DigestsDiffer, Stale;
    FirstIsEmpty(cfg, states, acts);
    if i == 0 {
      EmptyKept(cfg, k);
    } else {
      AcknowledgedKept(cfg, states, acts, i - 1, k);
      StepAt(cfg, states, acts, i - 1);
      RunInv(cfg, states, acts, i - 1);
      var s, a, was := states[i - 1], acts[i - 1], ExpectedAt(states, acts, i - 1, k);
      if KeyOf(a).Some? {
        OperationKept(cfg, s, a, k, was);
      } else if a.Crash? {
        if s.phase.Up? {
          CrashKept(cfg, s, k, was);
        } else {
          var row0 := RecoveryBase(cfg, states, acts, i - 1, k);
          RestartKept(cfg, s, k, row0, was);
          Unexpected(s, k, was);
        }
      } else {
        RunShape(cfg, states, acts, i - 1);
        RecoverKept(cfg, s, a, k, was);
      }
    }
  }

  lemma EmptyKept(cfg: Config, k: Str)
    ensures Kept(cfg, EMPTY_STORE, k, {None})
  {
  }

  lemma Unexpected(s: Store, k: Str, was: set<Option<Row>>)
    requires s.phase.Down?
    ensures Expected(s, Crash, k, was) == was
  {
  }

  /** Where a stale BEGIN comes from: a delete on the key that found nothing, since the last open. */
  lemma {:induction false} StaleMeansNotFound(cfg: Config, states: seq<Store>, acts: seq<Action>, i: nat, k: Str) returns (q: nat)
    requires IsRun(cfg, states, acts) && DigestsDiffer(cfg) && i < |states| && k in cfg.keys
    requires states[i].phase.Up? && Stale(states[i], k)
    ensures q < i && |states| == |acts| + 1 && acts[q] == Tombstone(k) && !Live(RowOf(states[q], k))
    ensures forall m :: q <= m < i ==> !acts[m].Crash? && !acts[m].Checkpoint?
  {
    hide IsRun, Inv, Stale, DigestsDiffer, Apply, Enabled;
    FirstIsEmpty(cfg, states, acts);
    EmptyNotStale(k);
    StepAt(cfg, states, acts, i - 1);
    RunInv(cfg, states, acts, i - 1);
    var s, a := states[i - 1], acts[i - 1];
    StaleStep(cfg, s, a, k);
    if a == Tombstone(k) && !Live(RowOf(s, k)) {
      q := i - 1;
    } else {
      q := StaleMeansNotFound(cfg, states, acts, i - 1, k);
    }
  }

  lemma EmptyNotStale(k: Str)
    ensures !Stale(EMPTY_STORE, k)
  {
  }

  lemma StaleStep(cfg: Config, s: Store, a: Action, k: Str)
    requires Inv(cfg, s) && DigestsDiffer(cfg) && Enabled(cfg, s, a) && k in cfg.keys
    requires Apply(cfg, s, a).phase.Up? && Stale(Apply(cfg, s, a), k)
    ensures !a.Crash? && !a.Checkpoint? && s.phase.Up? && ((a == Tombstone(k) && !Live(RowOf(s, k))) || Stale(s, k))
  {
    hide Inv, Open, Done, Shape, SeqsOK, FlightOK;
    KeyPart(cfg, s, k);
    if a.Checkpoint? {
      CheckpointOutcome(cfg, s, k);
    } else if KeyOf(a).Some? {
      if KeyOf(a).value != k {
        OthersUntouched(cfg, s, a, k);
      } else if a.LogBegin? {
        NotDone(s, k);
        BeginAppended(s.wal, BeginOf(k, s.flights[k]), k);
      } else if a.Finish? {
        FinishOpen(cfg, s, k, k);
      } else {
        assert OpenAll(Apply(cfg, s, a), k) == OpenAll(s, k);
      }
    }
  }

  lemma StaleStays(cfg: Config, s: Store, a: Action, k: Str)
    requires Inv(cfg, s) && DigestsDiffer(cfg) && Enabled(cfg, s, a) && k in cfg.keys && s.phase.Up? && !a.Crash?
    requires Stale(s, k) || (a == Tombstone(k) && !Live(RowOf(s, k)))
    ensures Apply(cfg, s, a).phase.Up? && Stale(Apply(cfg, s, a), k)
  {
    hide Inv, Open, Done, Shape, SeqsOK, FlightOK;
    KeyPart(cfg, s, k);
    if KeyOf(a).value != k {
      OthersUntouched(cfg, s, a, k);
    } else if a.LogBegin? {
      NotDone(s, k);
      BeginAppended(s.wal, BeginOf(k, s.flights[k]), k);
    } else if a.Finish? {
      FinishOpen(cfg, s, k, k);
    } else {
      assert OpenAll(Apply(cfg, s, a), k) == OpenAll(s, k);
    }
  }

  /** At step q a delete on k returned NotFound, and the store has been up from there to state i. */
  predicate MissedSince(states: seq<Store>, acts: seq<Action>, q: nat, i: nat, k: Str) {
    && q < i <= |acts| && i < |states| && acts[q] == Tombstone(k) && !Live(RowOf(states[q], k))
    && forall m :: q <= m < i ==> !acts[m].Crash? && !acts[m].Checkpoint?
  }

  lemma {:induction false} MissedIsStale(cfg: Config, states: seq<Store>, acts: seq<Action>, q: nat, i: nat, k: Str)
    requires IsRun(cfg, states, acts) && DigestsDiffer(cfg) && k in cfg.keys && MissedSince(states, acts, q, i, k)
    ensures states[i].phase.Up? && Stale(states[i], k)
    decreases i
  {
    hide IsRun, Inv, Stale, DigestsDiffer, Apply;
    StepAt(cfg, states, acts, i - 1);
    RunInv(cfg, states, acts, i - 1);
    if q < i - 1 {
      MissedIsStale(cfg, states, acts, q, i - 1, k);
    }
    StaleStays(cfg, states[i - 1], acts[i - 1], k);
  }

  /** Callers can tell from the replies they got whether a stale BEGIN is in the log. */
  lemma StaleIffMissed(cfg: Config, states: seq<Store>, acts: seq<Action>, i: nat, k: Str)
    requires IsRun(cfg, states, acts) && DigestsDiffer(cfg) && i < |states| && k in cfg.keys && states[i].phase.Up?
    ensures Stale(states[i], k) <==> exists q :: MissedSince(states, acts, q, i, k)
  {
    hide IsRun, Stale, DigestsDiffer;
    if Stale(states[i], k) {
      var q := StaleMeansNotFound(cfg, states, acts, i, k);
      assert MissedSince(states, acts, q, i, k);
    }
    forall q | MissedSince(states, acts, q, i, k)
      ensures Stale(states[i], k)
    {
      MissedIsStale(cfg, states, acts, q, i, k);
    }
  }
}
