/** Payload integrity, version numbers and conditional writes of the object store, over every run. */
module StoreVersions {
  import opened ByteStrings
  import opened Wire
  import opened Wal
  import opened ObjectStore
  import opened StoreInvariant
  import opened StoreRecovery
  import opened StoreSafety

  // ----- integrity -----

  predicate Matches(cfg: Config, s: Store, k: Str) {
    !Broken(cfg, RowOf(s, k), FileOf(cfg, s, k))
  }

  /** An explicit version is newer than the row, or the row is not live, or the payload has the same checksum. */
  predicate Harmless(cfg: Config, before: Option<Row>, version: nat, checksum: Str) {
    version > VersionOf(before) || !Live(before) || before.value.checksum == checksum
  }

  /** The payload in place is the one of the last unresolved put, which recovery will complete. */
  predicate Completes(cfg: Config, row: Option<Row>, file: Option<Str>, open: seq<WalRecord>) {
    && open != [] && Last(open).Begin? && Last(open).op == PUT && Last(open).version > VersionOf(row)
    && file.Some? && cfg.sum(file.value) == Last(open).checksum
  }

  predicate Sound(cfg: Config, s: Store, k: Str)
    requires Position(s) <= |s.wal|
  {
    if s.phase.Down? then
      Matches(cfg, s, k) || Completes(cfg, RowOf(s, k), FileOf(cfg, s, k), Ahead(s, k))
    else
      && (k in s.flights && s.flights[k].Putting? ==>
            var f := s.flights[k]; Harmless(cfg, f.before, f.row.version, f.row.checksum))
      && (!InFlight(s, k, Placed) ==> Matches(cfg, s, k))
  }

  /** A caller who gives an explicit version gives a harmless one. */
  predicate Heeds(cfg: Config, s: Store, a: Action, k: Str) {
    a.StartPut? && a.key == k && a.mode.Explicit? ==> Harmless(cfg, RowOf(s, k), a.mode.version, cfg.sum(a.data))
  }

  lemma OperationSound(cfg: Config, s: Store, a: Action, k: Str)
    requires Inv(cfg, s) && DigestsDiffer(cfg) && Enabled(cfg, s, a) && k in cfg.keys && KeyOf(a).Some?
    requires Position(s) <= |s.wal| && Sound(cfg, s, k) && Heeds(cfg, s, a, k)
    ensures Position(Apply(cfg, s, a)) <= |Apply(cfg, s, a).wal| && Sound(cfg, Apply(cfg, s, a), k)
  {
    hide Inv, Open, Done, LogOK, Shape, SeqsOK;
    KeyPart(cfg, s, k);
    if KeyOf(a).value != k {
      OthersUntouched(cfg, s, a, k);
    }
  }

  lemma CrashSound(cfg: Config, s: Store, k: Str)
    requires Inv(cfg, s) && k in cfg.keys && Position(s) <= |s.wal| && Sound(cfg, s, k)
    ensures Sound(cfg, Apply(cfg, s, Crash), k)
  {
    hide Inv, Open, Done, Shape, SeqsOK;
    KeyPart(cfg, s, k);
    var t := Apply(cfg, s, Crash);
    assert t.wal[0..] == s.wal;
    assert Ahead(t, k) == OpenAll(s, k);
    if s.phase.Down? {
      OpenIsBehindAhead(s, k);
      assert Ahead(s, k) != [] ==> Last(OpenAll(s, k)) == Last(Ahead(s, k));
    }
  }

  /** One record looked at. */
  lemma RedoneSound(cfg: Config, row: Option<Row>, file: Option<Str>, r: WalRecord, rest: seq<WalRecord>, now: int)
    requires r.Begin? && (rest != [] ==> r.op != PUT)
    requires !Broken(cfg, row, file) || Completes(cfg, row, file, [r] + rest)
    ensures var row' := Redone(cfg, row, file, r, now); !Broken(cfg, row', file) || Completes(cfg, row', file, rest)
  {
  }

  lemma RecoverSound(cfg: Config, s: Store, now: int, k: Str)
    requires Shape(cfg, s) && LogOK(s, k) && Enabled(cfg, s, RecoverOne(now)) && Sound(cfg, s, k)
    ensures var t := Apply(cfg, s, RecoverOne(now)); Position(t) <= |t.wal| && Sound(cfg, t, k)
  {
    hide Open, Done, LogOK, Shape, Redone, Completes, Broken;
    var t, r := Apply(cfg, s, RecoverOne(now)), s.wal[s.phase.n];
    var rest := Ahead(t, k);
    AheadSplits(s, k);
    assert rest == Ahead(s.(phase := Down(s.phase.n + 1)), k);
    if Unresolved(Done(s.wal), r) && r.key == k {
      if rest != [] {
        FirstIsDelete(s, k);
      }
      RedoneKeeps(cfg, RowOf(s, k), FileOf(cfg, s, k), r, now);
      RedoneSound(cfg, RowOf(s, k), FileOf(cfg, s, k), r, rest, now);
    } else {
      assert [] + rest == rest;
    }
  }

  lemma FirstIsDelete(s: Store, k: Str)
    requires s.phase.Down? && s.phase.n <= |s.wal| && LogOK(s, k) && |Ahead(s, k)| > 1
    ensures Ahead(s, k)[0].Begin? && Ahead(s, k)[0].op != PUT
  {
    hide Open, Done;
    OpenIsBehindAhead(s, k);
    var a, b := Behind(s, k), Ahead(s, k);
    assert Init(a + b)[|a|] == b[0];
  }

  lemma CheckpointSound(cfg: Config, s: Store, k: Str)
    requires Shape(cfg, s) && Enabled(cfg, s, Checkpoint) && Sound(cfg, s, k)
    ensures Sound(cfg, Apply(cfg, s, Checkpoint), k)
  {
    assert s.wal[s.phase.n..] == [];
  }

  lemma {:induction false} RunSound(cfg: Config, states: seq<Store>, acts: seq<Action>, i: nat, k: Str)
    requires IsRun(cfg, states, acts) && DigestsDiffer(cfg) && i < |states| && k in cfg.keys
    requires forall m :: 0 <= m < i && m < |acts| ==> Heeds(cfg, states[m], acts[m], k)
    ensures Position(states[i]) <= |states[i].wal| && Sound(cfg, states[i], k)
  {
    hide IsRun, Inv, Sound, Heeds, Apply, Enabled, DigestsDiffer;
    FirstIsEmpty(cfg, states, acts);
    RunShape(cfg, states, acts, i);
    if i == 0 {
      EmptySound(cfg, k);
    } else {
      RunSound(cfg, states, acts, i - 1, k);
      StepAt(cfg, states, acts, i - 1);
      RunInv(cfg, states, acts, i - 1);
      var s, a := states[i - 1], acts[i - 1];
      KeyPart(cfg, s, k);
      if KeyOf(a).Some? {
        OperationSound(cfg, s, a, k);
      } else if a.Crash? {
        CrashSound(cfg, s, k);
      } else if a.RecoverOne? {
        RecoverSound(cfg, s, a.now, k);
      } else {
        CheckpointSound(cfg, s, k);
      }
    }
  }

  lemma EmptySound(cfg: Config, k: Str)
    ensures Sound(cfg, EMPTY_STORE, k)
  {
  }

  /**
    As long as explicit versions are harmless, a live row always has a payload file with its checksum,
    and every recovery, wherever the crash was, leaves it so.
   */
  lemma Integrity(cfg: Config, states: seq<Store>, acts: seq<Action>, i: nat, k: Str)
    requires IsRun(cfg, states, acts) && DigestsDiffer(cfg) && i < |states| && k in cfg.keys
    requires forall m :: 0 <= m < i && m < |acts| ==> Heeds(cfg, states[m], acts[m], k)
    ensures states[i].phase.Up? && !InFlight(states[i], k, Placed) ==> !Broken(cfg, RowOf(states[i], k), FileOf(cfg, states[i], k))
    ensures Position(states[i]) <= |states[i].wal| && !Broken(cfg, Outcome(cfg, states[i], k), FileOf(cfg, states[i], k))
  {
    hide IsRun, Inv, Heeds, Open, Done, Redo;
    RunSound(cfg, states, acts, i, k);
    RunInv(cfg, states, acts, i);
    KeyPart(cfg, states[i], k);
    var s := states[i];
    CrashSound(cfg, s, k);
    if s.phase.Up? {
      var t := Apply(cfg, s, Crash);
      CrashInv(cfg, s);
      KeyPart(cfg, t, k);
      assert Ahead(t, k) == Ahead(s, k);
      DownOutcomeSound(cfg, t, k);
    } else {
      DownOutcomeSound(cfg, s, k);
    }
  }

  lemma AheadShape(s: Store, k: Str)
    requires s.phase.Down? && s.phase.n <= |s.wal| && LogOK(s, k) && Ahead(s, k) != []
    ensures Deletes(Init(Ahead(s, k)))
  {
    hide Open, Done;
    OpenIsBehindAhead(s, k);
    assert Init(Behind(s, k) + Ahead(s, k)) == Behind(s, k) + Init(Ahead(s, k));
  }

  lemma DownOutcomeSound(cfg: Config, s: Store, k: Str)
    requires Shape(cfg, s) && LogOK(s, k) && s.phase.Down? && Sound(cfg, s, k)
    ensures !Broken(cfg, Outcome(cfg, s, k), FileOf(cfg, s, k))
  {
    hide Open, Done, Redo, LogOK;
    var row, file, open := Core(RowOf(s, k)), FileOf(cfg, s, k), Ahead(s, k);
    if open == [] {
      RedoNone(cfg, row, file);
    } else {
      AheadShape(s, k);
      RedoLast(cfg, row, file, open);
    }
  }

  // ----- versions -----

  /** This step writes a row for k: the third stage of a put, or a put that recovery completes. */
  predicate PutsRow(cfg: Config, s: Store, a: Action, k: Str) {
    || a == Write(k)
    || (&& a.RecoverOne? && s.phase.Down? && s.phase.n < |s.wal|
        && var r := s.wal[s.phase.n];
           && Unresolved(Done(s.wal), r) && r.key == k && r.op == PUT
           && !(RowOf(s, k).Some? && RowOf(s, k).value.version >= r.version)
           && FileOf(cfg, s, k).Some? && cfg.sum(FileOf(cfg, s, k).value) == r.checksum)
  }

  function RowWrites(cfg: Config, states: seq<Store>, acts: seq<Action>, i: nat, k: Str): nat
    requires i <= |acts| && i <= |states|
  {
    if i == 0 then 0
    else RowWrites(cfg, states, acts, i - 1, k) + if PutsRow(cfg, states[i - 1], acts[i - 1], k) then 1 else 0
  }

  predicate NoExplicit(acts: seq<Action>, k: Str) {
    forall i :: 0 <= i < |acts| && acts[i].StartPut? && acts[i].key == k ==> !acts[i].mode.Explicit?
  }

  /** A put that is not written yet is for the next version. */
  predicate NextInLine(s: Store, k: Str) {
    && (k in s.flights && s.flights[k].Putting? ==> !s.flights[k].mode.Explicit?)
    && (s.phase.Down? ==> forall r :: r in OpenAll(s, k) && r.op == PUT ==> 0 < r.version <= VersionOf(RowOf(s, k)) + 1)
  }

  lemma NextVersion(cfg: Config, s: Store, k: Str)
    requires k in s.flights && s.flights[k].Putting? && FlightOK(cfg, s, k) && NextInLine(s, k)
    ensures s.flights[k].row.version == VersionOf(s.flights[k].before) + 1
  {
  }

  lemma OperationCounted(cfg: Config, s: Store, a: Action, k: Str)
    requires Inv(cfg, s) && DigestsDiffer(cfg) && Enabled(cfg, s, a) && k in cfg.keys && KeyOf(a).Some? && NextInLine(s, k)
    requires a.StartPut? && a.key == k ==> !a.mode.Explicit?
    ensures var t := Apply(cfg, s, a);
            NextInLine(t, k) && VersionOf(RowOf(t, k)) == VersionOf(RowOf(s, k)) + if PutsRow(cfg, s, a, k) then 1 else 0
  {
    hide Inv, OpenAll, LogOK, Shape, SeqsOK;
    KeyPart(cfg, s, k);
    if KeyOf(a).value != k {
      OthersUntouched(cfg, s, a, k);
    } else if a.Write? {
      NextVersion(cfg, s, k);
    }
  }

  lemma CrashCounted(cfg: Config, s: Store, k: Str)
    requires Inv(cfg, s) && k in cfg.keys && NextInLine(s, k)
    ensures NextInLine(Apply(cfg, s, Crash), k) && RowOf(Apply(cfg, s, Crash), k) == RowOf(s, k)
  {
    hide Inv, Open, Done, Shape, SeqsOK;
    KeyPart(cfg, s, k);
    var t := Apply(cfg, s, Crash);
    var open := OpenAll(s, k);
    assert OpenAll(t, k) == open;
    if s.phase.Up? {
      if k in s.flights && s.flights[k].Putting? {
        NextVersion(cfg, s, k);
      }
      forall r | r in open && r.op == PUT
        ensures 0 < r.version <= VersionOf(RowOf(s, k)) + 1
      {
        OnlyLastPuts(s, k, r);
      }
    }
  }

  lemma OnlyLastPuts(s: Store, k: Str, r: WalRecord)
    requires LogOK(s, k) && s.phase.Up? && r in OpenAll(s, k) && r.op == PUT
    ensures k in s.flights && r == BeginOf(k, s.flights[k]) && s.flights[k].Putting?
  {
    hide Open, Done;
    var open := OpenAll(s, k);
    if k in s.flights && LoggedYet(s.flights[k]) {
      assert open == Init(open) + [Last(open)];
    }
  }

  lemma RecoverCounted(cfg: Config, s: Store, a: Action, k: Str)
    requires Shape(cfg, s) && Enabled(cfg, s, a) && (a.RecoverOne? || a.Checkpoint?) && NextInLine(s, k)
    ensures var t := Apply(cfg, s, a);
            NextInLine(t, k) && VersionOf(RowOf(t, k)) == VersionOf(RowOf(s, k)) + if PutsRow(cfg, s, a, k) then 1 else 0
  {
    hide Done;
    var t := Apply(cfg, s, a);
    if a.RecoverOne? {
      var r := s.wal[s.phase.n];
      assert r.Begin? && Unresolved(Done(s.wal), r) && r.key == k ==> r in OpenAll(s, k);
      assert OpenAll(t, k) == OpenAll(s, k);
    }
  }

  lemma StepCounted(cfg: Config, s: Store, a: Action, k: Str)
    requires Inv(cfg, s) && DigestsDiffer(cfg) && Enabled(cfg, s, a) && k in cfg.keys && NextInLine(s, k)
    requires a.StartPut? && a.key == k ==> !a.mode.Explicit?
    ensures var t := Apply(cfg, s, a);
            NextInLine(t, k) && VersionOf(RowOf(t, k)) == VersionOf(RowOf(s, k)) + if PutsRow(cfg, s, a, k) then 1 else 0
  {
    hide Inv, NextInLine, Apply, Enabled, DigestsDiffer;
    KeyPart(cfg, s, k);
    if KeyOf(a).Some? {
      OperationCounted(cfg, s, a, k);
    } else if a.Crash? {
      CrashCounted(cfg, s, k);
    } else {
      RecoverCounted(cfg, s, a, k);
    }
  }

  lemma {:induction false} RunCounted(cfg: Config, states: seq<Store>, acts: seq<Action>, i: nat, k: Str)
    requires IsRun(cfg, states, acts) && DigestsDiffer(cfg) && i < |states| && k in cfg.keys && NoExplicit(acts, k)
    ensures |states| == |acts| + 1 && NextInLine(states[i], k)
    ensures VersionOf(RowOf(states[i], k)) == RowWrites(cfg, states, acts, i, k)
  {
    hide IsRun, Inv, NextInLine, PutsRow, Apply, Enabled, DigestsDiffer;
    FirstIsEmpty(cfg, states, acts);
    if i == 0 {
      EmptyCounted(k);
    } else {
      RunCounted(cfg, states, acts, i - 1, k);
      StepAt(cfg, states, acts, i - 1);
      RunInv(cfg, states, acts, i - 1);
      StepCounted(cfg, states[i - 1], acts[i - 1], k);
    }
  }

  lemma EmptyCounted(k: Str)
    ensures NextInLine(EMPTY_STORE, k) && RowOf(EMPTY_STORE, k) == None
  {
  }

  lemma {:induction false} WritesGrow(cfg: Config, states: seq<Store>, acts: seq<Action>, i: nat, j: nat, k: Str)
    requires i <= j <= |acts| && j <= |states|
    ensures RowWrites(cfg, states, acts, i, k) <= RowWrites(cfg, states, acts, j, k)
    decreases j
  {
    if i < j {
      WritesGrow(cfg, states, acts, i, j - 1, k);
    }
  }

  /** Without explicit versions, a key's version is the number of rows written for it, so it never falls. */
  lemma VersionCountsWrites(cfg: Config, states: seq<Store>, acts: seq<Action>, i: nat, j: nat, k: Str)
    requires IsRun(cfg, states, acts) && DigestsDiffer(cfg) && i <= j < |states| && k in cfg.keys && NoExplicit(acts, k)
    ensures |states| == |acts| + 1
    ensures VersionOf(RowOf(states[j], k)) == RowWrites(cfg, states, acts, j, k)
    ensures VersionOf(RowOf(states[i], k)) <= VersionOf(RowOf(states[j], k))
  {
    hide IsRun;
    RunCounted(cfg, states, acts, i, k);
    RunCounted(cfg, states, acts, j, k);
    WritesGrow(cfg, states, acts, i, j, k);
  }

  // ----- conditional writes -----

  /** The row that the step returns to the caller of a put as its Ok result. */
  function Returned(s: Store, a: Action, k: Str): Option<Row> {
    if a.StartPut? && a.key == k && Decide(RowOf(s, k), a.mode).Retry? then Some(Decide(RowOf(s, k), a.mode).row)
    else if a == Finish(k) && k in s.flights && s.flights[k].Putting? then Some(s.flights[k].row)
    else None
  }

  /** How the caller called. */
  function CallerMode(s: Store, a: Action, k: Str): Mode
    requires Returned(s, a, k).Some?
  {
    if a.StartPut? then a.mode else s.flights[k].mode
  }

  lemma WriteVersion(cfg: Config, states: seq<Store>, acts: seq<Action>, q: nat, k: Str)
    requires IsRun(cfg, states, acts) && DigestsDiffer(cfg) && k in cfg.keys && NoExplicit(acts, k) && q < |acts| && acts[q] == Write(k)
    ensures |states| == |acts| + 1 && k in states[q].flights && states[q].flights[k].Putting?
    ensures VersionOf(RowOf(states[q + 1], k)) == states[q].flights[k].row.version == VersionOf(RowOf(states[q], k)) + 1
  {
    hide IsRun, Inv, LogOK, SeqsOK, Shape, DigestsDiffer;
    StepAt(cfg, states, acts, q);
    RunInv(cfg, states, acts, q);
    KeyPart(cfg, states[q], k);
    RunCounted(cfg, states, acts, q, k);
    NextVersion(cfg, states[q], k);
  }

  lemma WritersDiffer(cfg: Config, states: seq<Store>, acts: seq<Action>, p: nat, q: nat, k: Str)
    requires IsRun(cfg, states, acts) && DigestsDiffer(cfg) && k in cfg.keys && NoExplicit(acts, k)
    requires p < q < |acts| && acts[p] == Write(k) && acts[q] == Write(k)
    ensures |states| == |acts| + 1 && k in states[p].flights && k in states[q].flights
    ensures states[p].flights[k].Putting? && states[q].flights[k].Putting?
    ensures states[p].flights[k].row.version < states[q].flights[k].row.version
  {
    hide IsRun, DigestsDiffer;
    WriteVersion(cfg, states, acts, p, k);
    WriteVersion(cfg, states, acts, q, k);
    VersionCountsWrites(cfg, states, acts, p + 1, q, k);
  }

  /** The step that wrote the row of a put about to finish; the put has not finished since. */
  lemma {:induction false} FlightWriter(cfg: Config, states: seq<Store>, acts: seq<Action>, i: nat, k: Str) returns (q: nat)
    requires IsRun(cfg, states, acts) && DigestsDiffer(cfg) && i < |states| && InFlight(states[i], k, Written) && states[i].flights[k].Putting?
    ensures q < i && |states| == |acts| + 1 && acts[q] == Write(k) && k in states[q].flights && states[q].flights[k].Putting?
    ensures states[q].flights[k].row == states[i].flights[k].row
    ensures forall m :: q <= m < i ==> acts[m] != Finish(k)
  {
    hide IsRun, Apply, Enabled, DigestsDiffer;
    FirstIsEmpty(cfg, states, acts);
    StepAt(cfg, states, acts, i - 1);
    RunShape(cfg, states, acts, i - 1);
    var s, a := states[i - 1], acts[i - 1];
    WrittenStep(cfg, s, a, k);
    if a == Write(k) {
      q := i - 1;
    } else {
      q := FlightWriter(cfg, states, acts, i - 1, k);
    }
  }

  lemma WrittenStep(cfg: Config, s: Store, a: Action, k: Str)
    requires Shape(cfg, s) && Enabled(cfg, s, a)
    requires var t := Apply(cfg, s, a); InFlight(t, k, Written) && t.flights[k].Putting?
    ensures k in s.flights && s.flights[k].Putting? && s.flights[k].row == Apply(cfg, s, a).flights[k].row
    ensures a == Write(k) || (InFlight(s, k, Written) && a != Finish(k))
  {
  }

  /** The step that wrote a row which carries a request id. */
  lemma {:induction false} RowWriter(cfg: Config, states: seq<Store>, acts: seq<Action>, i: nat, k: Str) returns (q: nat)
    requires IsRun(cfg, states, acts) && DigestsDiffer(cfg) && i < |states|
    requires RowOf(states[i], k).Some? && RowOf(states[i], k).value.requestId != []
    ensures q < i && |states| == |acts| + 1 && acts[q] == Write(k) && k in states[q].flights && states[q].flights[k].Putting?
    ensures var row, was := RowOf(states[i], k).value, states[q].flights[k].row;
            row.version == was.version && row.requestId == was.requestId
  {
    hide IsRun, Apply, Enabled, DigestsDiffer;
    FirstIsEmpty(cfg, states, acts);
    StepAt(cfg, states, acts, i - 1);
    var s, a := states[i - 1], acts[i - 1];
    RequestStep(cfg, s, a, k);
    if a == Write(k) {
      q := i - 1;
    } else {
      q := RowWriter(cfg, states, acts, i - 1, k);
    }
  }

  lemma RequestStep(cfg: Config, s: Store, a: Action, k: Str)
    requires Enabled(cfg, s, a)
    requires var row := RowOf(Apply(cfg, s, a), k); row.Some? && row.value.requestId != []
    ensures var row := RowOf(Apply(cfg, s, a), k).value;
            if a == Write(k) then
              k in s.flights && s.flights[k].Putting? && s.flights[k].row == row
            else
              var was := RowOf(s, k);
              was.Some? && was.value.version == row.version && was.value.requestId == row.requestId
  {
  }

  /** The write behind an Ok result. */
  lemma ResultWriter(cfg: Config, states: seq<Store>, acts: seq<Action>, i: nat, k: Str) returns (q: nat)
    requires IsRun(cfg, states, acts) && DigestsDiffer(cfg) && i < |acts| && k in cfg.keys
    requires |states| == |acts| + 1 && Returned(states[i], acts[i], k).Some?
    ensures q < i && acts[q] == Write(k) && k in states[q].flights && states[q].flights[k].Putting?
    ensures states[q].flights[k].row.version == Returned(states[i], acts[i], k).value.version
    ensures states[q].flights[k].row.requestId == RequestOf(CallerMode(states[i], acts[i], k))
    ensures acts[i] == Finish(k) ==> forall m :: q <= m < i ==> acts[m] != Finish(k)
    ensures acts[i] != Finish(k) ==> RequestOf(CallerMode(states[i], acts[i], k)) != []
  {
    hide IsRun, Inv, DigestsDiffer;
    StepAt(cfg, states, acts, i);
    RunInv(cfg, states, acts, i);
    KeyPart(cfg, states[i], k);
    if acts[i].StartPut? {
      q := RowWriter(cfg, states, acts, i, k);
    } else {
      q := FlightWriter(cfg, states, acts, i, k);
    }
  }

  /**
    Two writes on one key that were both told Ok for the same version carry the same, non-empty request
    id: of the conditional writes that expect one version, at most one request wins.
   */
  lemma AtMostOneWins(cfg: Config, states: seq<Store>, acts: seq<Action>, i: nat, j: nat, k: Str)
    requires IsRun(cfg, states, acts) && DigestsDiffer(cfg) && k in cfg.keys && NoExplicit(acts, k)
    requires |states| == |acts| + 1 && i < j < |acts|
    requires Returned(states[i], acts[i], k).Some? && Returned(states[j], acts[j], k).Some?
    requires Returned(states[i], acts[i], k).value.version == Returned(states[j], acts[j], k).value.version
    ensures RequestOf(CallerMode(states[i], acts[i], k)) == RequestOf(CallerMode(states[j], acts[j], k)) != []
  {
    hide IsRun, DigestsDiffer, Returned, CallerMode;
    var p := ResultWriter(cfg, states, acts, i, k);
    var q := ResultWriter(cfg, states, acts, j, k);
    if p < q {
      WritersDiffer(cfg, states, acts, p, q, k);
    } else if q < p {
      WritersDiffer(cfg, states, acts, q, p, k);
    }
  }

  /** The call behind a put under way. */
  lemma {:induction false} FlightCaller(cfg: Config, states: seq<Store>, acts: seq<Action>, i: nat, k: Str) returns (p: nat)
    requires IsRun(cfg, states, acts) && i < |states| && k in states[i].flights && states[i].flights[k].Putting?
    ensures p < i && |states| == |acts| + 1 && acts[p].StartPut? && acts[p].key == k && acts[p].mode == states[i].flights[k].mode
    ensures Decide(RowOf(states[p], k), acts[p].mode) == Go(states[i].flights[k].row.version)
  {
    hide IsRun, Apply, Enabled, Decide;
    FirstIsEmpty(cfg, states, acts);
    StepAt(cfg, states, acts, i - 1);
    CallerStep(cfg, states[i - 1], acts[i - 1], k);
    if acts[i - 1].StartPut? && acts[i - 1].key == k {
      p := i - 1;
    } else {
      p := FlightCaller(cfg, states, acts, i - 1, k);
    }
  }

  lemma CallerStep(cfg: Config, s: Store, a: Action, k: Str)
    requires Enabled(cfg, s, a)
    requires var t := Apply(cfg, s, a); k in t.flights && t.flights[k].Putting?
    ensures var t := Apply(cfg, s, a);
            if a.StartPut? && a.key == k then
              a.mode == t.flights[k].mode && Decide(RowOf(s, k), a.mode) == Go(t.flights[k].row.version)
            else
              k in s.flights && s.flights[k].Putting? && s.flights[k].mode == t.flights[k].mode && s.flights[k].row == t.flights[k].row
  {
    hide Decide;
  }

  /** The Ok result of step i was written for the conditional call of step p. */
  predicate WrittenFor(states: seq<Store>, acts: seq<Action>, i: nat, k: Str, p: nat)
    requires |states| == |acts| + 1 && i < |acts| && Returned(states[i], acts[i], k).Some?
  {
    && p < i && acts[p].StartPut? && acts[p].key == k && acts[p].mode.Conditional?
    && acts[p].mode.requestId == RequestOf(CallerMode(states[i], acts[i], k))
    && Returned(states[i], acts[i], k).value.version == acts[p].mode.expected + 1
  }

  /**
    Whatever a conditional write is told Ok for was written for a call with its request id, at the version
    after the one that call expected. It is the version after the one expected now exactly if that call
    was made in the same way, that is, if the id was not used with another expected version.
   */
  lemma ConditionalVersion(cfg: Config, states: seq<Store>, acts: seq<Action>, i: nat, k: Str) returns (p: nat)
    requires IsRun(cfg, states, acts) && DigestsDiffer(cfg) && k in cfg.keys
    requires |states| == |acts| + 1 && i < |acts| && Returned(states[i], acts[i], k).Some? && CallerMode(states[i], acts[i], k).Conditional?
    ensures WrittenFor(states, acts, i, k, p)
    ensures Returned(states[i], acts[i], k).value.version == CallerMode(states[i], acts[i], k).expected + 1 <==>
            acts[p].mode == CallerMode(states[i], acts[i], k)
  {
    hide IsRun, Inv, DigestsDiffer, LogOK, SeqsOK, Shape;
    StepAt(cfg, states, acts, i);
    RunInv(cfg, states, acts, i);
    KeyPart(cfg, states[i], k);
    var q := ResultWriter(cfg, states, acts, i, k);
    RunInv(cfg, states, acts, q);
    KeyPart(cfg, states[q], k);
    p := FlightCaller(cfg, states, acts, if acts[i].StartPut? then q else i, k);
  }

  /**
    Two conditional writes that expect one version and are both told Ok are the same request, unless one of
    them is answered with what was written for a call that used its request id with another expected version.
   */
  lemma OneRequestWins(cfg: Config, states: seq<Store>, acts: seq<Action>, i: nat, j: nat, k: Str) returns (p: nat, q: nat)
    requires IsRun(cfg, states, acts) && DigestsDiffer(cfg) && k in cfg.keys && NoExplicit(acts, k)
    requires |states| == |acts| + 1 && i < j < |acts|
    requires Returned(states[i], acts[i], k).Some? && Returned(states[j], acts[j], k).Some?
    requires CallerMode(states[i], acts[i], k).Conditional? && CallerMode(states[j], acts[j], k).Conditional?
    requires CallerMode(states[i], acts[i], k).expected == CallerMode(states[j], acts[j], k).expected
    ensures WrittenFor(states, acts, i, k, p) && WrittenFor(states, acts, j, k, q)
    ensures CallerMode(states[i], acts[i], k) != CallerMode(states[j], acts[j], k) || CallerMode(states[i], acts[i], k).requestId == [] ==>
              || acts[p].mode.expected != CallerMode(states[i], acts[i], k).expected
              || acts[q].mode.expected != CallerMode(states[j], acts[j], k).expected
  {
    hide IsRun, DigestsDiffer, NoExplicit;
    p := ConditionalVersion(cfg, states, acts, i, k);
    q := ConditionalVersion(cfg, states, acts, j, k);
    if Returned(states[i], acts[i], k).value.version == Returned(states[j], acts[j], k).value.version {
      AtMostOneWins(cfg, states, acts, i, j, k);
    }
  }
}
