/** The object store class: its methods are runs of the state machine, one operation at a time. */
module LocalObjectStore {
  import opened ByteStrings
  import opened Wire
  import opened Wal
  import opened ObjectStore
  import opened StoreInvariant
  import opened StoreRecovery

  // ----- several steps in a row -----

  predicate Runs(cfg: Config, s: Store, acts: seq<Action>)
    decreases |acts|
  {
    acts == [] || (Enabled(cfg, s, acts[0]) && Runs(cfg, Apply(cfg, s, acts[0]), acts[1..]))
  }

  function Exec(cfg: Config, s: Store, acts: seq<Action>): Store
    requires Runs(cfg, s, acts)
    decreases |acts|
  {
    if acts == [] then s else Exec(cfg, Apply(cfg, s, acts[0]), acts[1..])
  }

  lemma {:induction false} ExecSnoc(cfg: Config, s: Store, acts: seq<Action>, a: Action)
    requires Runs(cfg, s, acts) && Enabled(cfg, Exec(cfg, s, acts), a)
    ensures Runs(cfg, s, acts + [a]) && Exec(cfg, s, acts + [a]) == Apply(cfg, Exec(cfg, s, acts), a)
    decreases |acts|
  {
    hide Enabled, Apply;
    if acts == [] {
      assert acts + [a] == [a] && [a][1..] == [];
    } else {
      assert (acts + [a])[1..] == acts[1..] + [a];
      ExecSnoc(cfg, Apply(cfg, s, acts[0]), acts[1..], a);
    }
  }

  /** A put that goes ahead. */
  function PutActs(k: Str, data: Str, mode: Mode, now: int): seq<Action> {
    [StartPut(k, data, mode, now), LogBegin(k), Place(k), Write(k), Finish(k)]
  }

  /** A delete of a live object. */
  function DeleteActs(k: Str): seq<Action> {
    [StartDelete(k), LogBegin(k), Tombstone(k), Finish(k)]
  }

  /** A delete that finds nothing. */
  function MissActs(k: Str): seq<Action> {
    [StartDelete(k), LogBegin(k), Tombstone(k)]
  }

  function PutRow(cfg: Config, s: Store, k: Str, data: Str, mode: Mode, now: int): Row
    requires Decide(RowOf(s, k), mode).Go?
  {
    NewRow(cfg, data, Decide(RowOf(s, k), mode).version, mode, now)
  }

  /** The whole effect of a put. */
  function AfterPut(cfg: Config, s: Store, k: Str, data: Str, mode: Mode, now: int): Store
    requires Decide(RowOf(s, k), mode).Go?
  {
    var row := PutRow(cfg, s, k, data, mode, now);
    s.(rows := s.rows[k := row], files := s.files[cfg.digest(k) := data],
       wal := s.wal + [Begin(s.nextSeq, PUT, k, row.version, row.checksum, row.size)] + [Commit(s.nextSeq)],
       nextSeq := s.nextSeq + 1)
  }

  lemma PutRuns(cfg: Config, s: Store, k: Str, data: Str, mode: Mode, now: int)
    requires Enabled(cfg, s, StartPut(k, data, mode, now)) && Decide(RowOf(s, k), mode).Go?
    ensures Runs(cfg, s, PutActs(k, data, mode, now))
    ensures Exec(cfg, s, PutActs(k, data, mode, now)) == AfterPut(cfg, s, k, data, mode, now)
  {
    hide Runs, Exec, Decide, NewRow;
    PlaceRuns(cfg, s, k, data, mode, now);
    var a3, a4 := Write(k), Finish(k);
    var s3 := Exec(cfg, s, PlaceActs(k, data, mode, now));
    ExecSnoc(cfg, s, PlaceActs(k, data, mode, now), a3);
    ExecSnoc(cfg, s, PlaceActs(k, data, mode, now) + [a3], a4);
    assert PlaceActs(k, data, mode, now) + [a3] + [a4] == PutActs(k, data, mode, now);
    assert Apply(cfg, s3, a3).flights - {k} == s.flights;
  }

  lemma RunsNone(cfg: Config, s: Store)
    ensures Runs(cfg, s, []) && Exec(cfg, s, []) == s
  {
  }

  lemma DeleteRuns(cfg: Config, s: Store, k: Str)
    requires Enabled(cfg, s, StartDelete(k))
    ensures Runs(cfg, s, MissActs(k)) && Runs(cfg, s, if Live(RowOf(s, k)) then DeleteActs(k) else MissActs(k))
    ensures var begin := Begin(s.nextSeq, DELETE, k, 0, [], 0);
            Exec(cfg, s, if Live(RowOf(s, k)) then DeleteActs(k) else MissActs(k)) ==
            if Live(RowOf(s, k))
            then s.(rows := s.rows[k := s.rows[k].(deleted := true)], wal := s.wal + [begin] + [Commit(s.nextSeq)], nextSeq := s.nextSeq + 1)
            else s.(wal := s.wal + [begin], nextSeq := s.nextSeq + 1)
  {
    hide Runs, Exec;
    RunsNone(cfg, s);
    var a0, a1, a2, a3 := StartDelete(k), LogBegin(k), Tombstone(k), Finish(k);
    var s1 := Apply(cfg, s, a0);
    ExecSnoc(cfg, s, [], a0);
    assert [] + [a0] == [a0];
    var s2 := Apply(cfg, s1, a1);
    ExecSnoc(cfg, s, [a0], a1);
    assert [a0] + [a1] == [a0, a1];
    var s3 := Apply(cfg, s2, a2);
    ExecSnoc(cfg, s, [a0, a1], a2);
    assert [a0, a1] + [a2] == MissActs(k);
    assert s2.flights - {k} == s.flights;
    if Live(RowOf(s, k)) {
      ExecSnoc(cfg, s, MissActs(k), a3);
      assert MissActs(k) + [a3] == DeleteActs(k);
      assert s3.flights - {k} == s.flights;
    }
  }

  // ----- recovery as a whole -----

  /** The first n steps of recovery; `clock` tells the time at each record. */
  function RecoverTo(cfg: Config, s: Store, n: nat, clock: nat -> int): (t: Store)
    requires s.phase == Down(0) && n <= |s.wal|
    ensures t.phase == Down(n) && t.wal == s.wal && t.files == s.files && t.flights == s.flights && t.nextSeq == s.nextSeq
  {
    if n == 0 then s else Apply(cfg, RecoverTo(cfg, s, n - 1, clock), RecoverOne(clock(n - 1)))
  }

  lemma {:induction false} RecoverToOutcome(cfg: Config, s: Store, n: nat, clock: nat -> int, k: Str)
    requires s.phase == Down(0) && n <= |s.wal|
    ensures Outcome(cfg, RecoverTo(cfg, s, n, clock), k) == Outcome(cfg, s, k)
  {
    hide Outcome, Apply;
    if n > 0 {
      RecoverToOutcome(cfg, s, n - 1, clock, k);
      RecoverOneOutcome(cfg, RecoverTo(cfg, s, n - 1, clock), clock(n - 1), k);
    }
  }

  /** Opening after a crash at s: every key holds the outcome, and the log is empty. */
  lemma ReopenReachesOutcome(cfg: Config, s: Store, clock: nat -> int, k: Str)
    ensures var down := Apply(cfg, s, Crash);
            var t := Apply(cfg, RecoverTo(cfg, down, |s.wal|, clock), Checkpoint);
            t.phase.Up? && t.wal == [] && Core(RowOf(t, k)) == Outcome(cfg, down, k)
  {
    hide Outcome, RecoverTo;
    var down := Apply(cfg, s, Crash);
    RecoverToOutcome(cfg, down, |s.wal|, clock, k);
    CheckpointOutcome(cfg, RecoverTo(cfg, down, |s.wal|, clock), k);
  }

  // ----- a delete that finds nothing undoes a later put -----

  /**
    On an empty store: a delete that returns NotFound, then a put that returns Ok, then a crash. The
    acknowledged object is gone after recovery.
   */
  lemma NotFoundDeleteUndoesPut(cfg: Config, k: Str, data: Str)
    requires k in cfg.keys && k != []
    ensures var s1 := EMPTY_STORE.(wal := [Begin(1, DELETE, k, 0, [], 0)], nextSeq := 2);
            && Runs(cfg, EMPTY_STORE, MissActs(k)) && Exec(cfg, EMPTY_STORE, MissActs(k)) == s1
            && Runs(cfg, s1, PutActs(k, data, Auto, 0))
            && var s2 := Exec(cfg, s1, PutActs(k, data, Auto, 0));
               Live(RowOf(s2, k)) && Position(s2) <= |s2.wal| && !Live(Outcome(cfg, s2, k))
  {
    hide Runs, Exec, Redo, Open, Apply, MissActs, PutActs, DeleteActs;
    var s1 := EMPTY_STORE.(wal := [Begin(1, DELETE, k, 0, [], 0)], nextSeq := 2);
    DeleteRuns(cfg, EMPTY_STORE, k);
    assert EMPTY_STORE.wal + [Begin(1, DELETE, k, 0, [], 0)] == s1.wal;
    PutRuns(cfg, s1, k, data, Auto, 0);
    StaleKills(cfg, AfterPut(cfg, s1, k, data, Auto, 0), k);
  }

  lemma StaleKills(cfg: Config, s: Store, k: Str)
    requires s.phase.Up? && |s.wal| == 3 && s.wal[0] == Begin(1, DELETE, k, 0, [], 0) && s.wal[1].Begin? && s.wal[1].sn == 2 && s.wal[2] == Commit(2)
    ensures Position(s) <= |s.wal| && !Live(Outcome(cfg, s, k))
  {
    hide Redo, Open;
    var r0, r1 := s.wal[0], s.wal[1];
    StaleStays(k, r0, r1);
    assert s.wal[0..] == s.wal == [r0, r1, Commit(2)];
    assert Done(s.wal) == {2};
    RedoDeletes(cfg, Core(RowOf(s, k)), FileOf(cfg, s, k), [r0]);
  }

  lemma StaleStays(k: Str, r0: WalRecord, r1: WalRecord)
    requires r0.Begin? && r0.key == k && r0.sn == 1 && r1.Begin? && r1.sn == 2
    ensures Open([r0, r1, Commit(2)], {2}, k) == [r0]
  {
    hide Open;
    assert [r0, r1, Commit(2)] == [r0] + ([r1] + [Commit(2)]);
    OpenConcat([r0], [r1] + [Commit(2)], {2}, k);
    OpenConcat([r1], [Commit(2)], {2}, k);
    OpenOne(r0, {2}, k);
    OpenOne(r1, {2}, k);
    OpenOne(Commit(2), {2}, k);
  }

  // ----- recovery cut and run again -----

  lemma BeginsAreOpen(wal: seq<WalRecord>)
    requires forall r :: r in wal ==> r.Begin?
    ensures Done(wal) == {}
  {
  }

  lemma RedoneFresh(cfg: Config, data: Str, r: WalRecord, now: int)
    requires r.Begin? && r.op == PUT && r.version > 0 && r.checksum == cfg.sum(data)
    ensures Redone(cfg, None, Some(data), r, now) == Some(Row(r.size, r.checksum, r.version, now, false, []))
  {
  }

  lemma RedoneMissing(cfg: Config, file: Option<Str>, r: WalRecord, now: int)
    requires r.Begin? && r.op != PUT
    ensures Redone(cfg, None, file, r, now) == None
  {
  }

  /**
    On an empty store: a delete that returns NotFound, a put that crashes once its payload is placed, and
    a second crash when recovery has completed the put: the object that recovery brought back is deleted.
   */
  lemma RestartUndoesRecovery(cfg: Config, k: Str, data: Str, clock: nat -> int)
    requires k in cfg.keys && k != []
    ensures var s1 := EMPTY_STORE.(wal := [Begin(1, DELETE, k, 0, [], 0)], nextSeq := 2);
            && Runs(cfg, EMPTY_STORE, MissActs(k)) && Exec(cfg, EMPTY_STORE, MissActs(k)) == s1
            && Runs(cfg, s1, PlaceActs(k, data, Auto, 0))
            && var down := Apply(cfg, Exec(cfg, s1, PlaceActs(k, data, Auto, 0)), Crash);
               && |down.wal| == 2
               && var mid := RecoverTo(cfg, down, 2, clock);
                  Live(Outcome(cfg, mid, k)) && !Live(Outcome(cfg, Apply(cfg, mid, Crash), k))
  {
    hide Runs, Exec, Redo, Open, RecoverTo, MissActs, DeleteActs, PlaceActs, Redone, Done, Outcome;
    var s1 := EMPTY_STORE.(wal := [Begin(1, DELETE, k, 0, [], 0)], nextSeq := 2);
    DeleteRuns(cfg, EMPTY_STORE, k);
    assert EMPTY_STORE.wal + [Begin(1, DELETE, k, 0, [], 0)] == s1.wal;
    PlaceRuns(cfg, s1, k, data, Auto, 0);
    var down := Apply(cfg, Exec(cfg, s1, PlaceActs(k, data, Auto, 0)), Crash);
    var r0, r1 := down.wal[0], down.wal[1];
    assert down.wal == [r0, r1];
    BeginsAreOpen(down.wal);
    RecoverToNone(cfg, down, clock);
    RecoverToStep(cfg, down, 0, clock);
    RedoneMissing(cfg, FileOf(cfg, down, k), r0, clock(0));
    RecoverToStep(cfg, down, 1, clock);
    RedoneFresh(cfg, data, r1, clock(1));
    RevivedDies(cfg, RecoverTo(cfg, down, 2, clock), k, r0, r1);
  }

  lemma RevivedDies(cfg: Config, mid: Store, k: Str, r0: WalRecord, r1: WalRecord)
    requires mid.phase == Down(2) && mid.wal == [r0, r1]
    requires r0.Begin? && r0.key == k && r0.op != PUT && r1.Begin? && r1.key == k && r1.op == PUT
    requires Live(RowOf(mid, k)) && RowOf(mid, k).value.version >= r1.version
    ensures Live(Outcome(cfg, mid, k)) && !Live(Outcome(cfg, Apply(cfg, mid, Crash), k))
  {
    hide Redo, Open, Done, Redone;
    var again := Apply(cfg, mid, Crash);
    var row, file, open := Core(RowOf(mid, k)), FileOf(cfg, mid, k), [r0, r1];
    BothOpen(mid, k, r0, r1);
    assert again.wal[0..] == mid.wal && mid.wal[2..] == [];
    RedoNone(cfg, row, file);
    assert Init(open) == [r0] && Last(open) == r1;
    RedoLast(cfg, row, file, open);
    OldPutSkipped(cfg, Tombstoned(row), file, r1);
  }

  lemma OldPutSkipped(cfg: Config, row: Option<Row>, file: Option<Str>, r: WalRecord)
    requires r.Begin? && r.op == PUT && row.Some? && row.value.version >= r.version
    ensures Redone(cfg, row, file, r, 0) == row
  {
  }

  lemma BothOpen(s: Store, k: Str, r0: WalRecord, r1: WalRecord)
    requires s.wal == [r0, r1] && r0.Begin? && r0.key == k && r1.Begin? && r1.key == k
    ensures Open(s.wal, Done(s.wal), k) == [r0, r1] && Open([], Done(s.wal), k) == []
  {
    hide Open;
    assert Done(s.wal) == {} && [r0, r1] == [r0] + [r1];
    OpenConcat([r0], [r1], {}, k);
    OpenOne(r0, {}, k);
    OpenOne(r1, {}, k);
    NothingOpen({}, k);
  }

  lemma NothingOpen(done: set<nat>, k: Str)
    ensures Open([], done, k) == []
  {
  }

  // ----- an explicit version that is not newer -----

  /** The first three stages of a put. */
  function PlaceActs(k: Str, data: Str, mode: Mode, now: int): seq<Action> {
    [StartPut(k, data, mode, now), LogBegin(k), Place(k)]
  }

  lemma PlaceRuns(cfg: Config, s: Store, k: Str, data: Str, mode: Mode, now: int)
    requires Enabled(cfg, s, StartPut(k, data, mode, now)) && Decide(RowOf(s, k), mode).Go?
    ensures Runs(cfg, s, PlaceActs(k, data, mode, now))
    ensures var t, row := Exec(cfg, s, PlaceActs(k, data, mode, now)), PutRow(cfg, s, k, data, mode, now);
            t == s.(files := s.files[cfg.digest(k) := data], nextSeq := s.nextSeq + 1,
                    wal := s.wal + [Begin(s.nextSeq, PUT, k, row.version, row.checksum, row.size)],
                    flights := s.flights[k := Putting(s.nextSeq, Placed, RowOf(s, k), row, data, mode)])
  {
    hide Runs, Exec, Decide, NewRow;
    RunsNone(cfg, s);
    var a0, a1, a2 := StartPut(k, data, mode, now), LogBegin(k), Place(k);
    ExecSnoc(cfg, s, [], a0);
    assert [] + [a0] == [a0];
    ExecSnoc(cfg, s, [a0], a1);
    assert [a0] + [a1] == [a0, a1];
    ExecSnoc(cfg, s, [a0, a1], a2);
    assert [a0, a1] + [a2] == PlaceActs(k, data, mode, now);
  }

  /** Version 2, then version 1 with other bytes, and a crash once these are placed: the live row and its file disagree. */
  lemma OldExplicitVersionBreaks(cfg: Config, k: Str, d0: Str, d1: Str)
    requires k in cfg.keys && k != [] && cfg.sum(d0) != cfg.sum(d1)
    ensures Runs(cfg, EMPTY_STORE, PutActs(k, d0, Explicit(2), 0))
    ensures var s1 := Exec(cfg, EMPTY_STORE, PutActs(k, d0, Explicit(2), 0));
            && Runs(cfg, s1, PlaceActs(k, d1, Explicit(1), 0))
            && var s2 := Exec(cfg, s1, PlaceActs(k, d1, Explicit(1), 0));
               Position(s2) <= |s2.wal| && Broken(cfg, Outcome(cfg, s2, k), FileOf(cfg, s2, k))
  {
    hide Runs, Exec, Redo, Open;
    PutRuns(cfg, EMPTY_STORE, k, d0, Explicit(2), 0);
    var s1 := AfterPut(cfg, EMPTY_STORE, k, d0, Explicit(2), 0);
    PlaceRuns(cfg, s1, k, d1, Explicit(1), 0);
    var s2 := Exec(cfg, s1, PlaceActs(k, d1, Explicit(1), 0));
    var r0, r1 := s2.wal[0], s2.wal[2];
    assert s2.wal[0..] == s2.wal == [r0, Commit(1), r1];
    assert Done(s2.wal) == {1};
    SecondStays(k, r0, r1);
    RedoOne(cfg, Core(RowOf(s2, k)), FileOf(cfg, s2, k), r1);
  }

  lemma SecondStays(k: Str, r0: WalRecord, r1: WalRecord)
    requires r0.Begin? && r0.sn == 1 && r1.Begin? && r1.sn == 2 && r1.key == k
    ensures Open([r0, Commit(1), r1], {1}, k) == [r1]
  {
    hide Open;
    assert [r0, Commit(1), r1] == [r0] + ([Commit(1)] + [r1]);
    OpenConcat([r0], [Commit(1)] + [r1], {1}, k);
    OpenConcat([Commit(1)], [r1], {1}, k);
    OpenOne(r0, {1}, k);
    OpenOne(Commit(1), {1}, k);
    OpenOne(r1, {1}, k);
  }

  // ----- a request id used twice -----

  /**
    Two conditional writes with different ids and expected versions 0 and 1, and then the second id with
    expected version 0: it is answered Ok as a retry, like the first write that expected 0.
   */
  lemma ReusedIdWinsAgain(cfg: Config, k: Str, data: Str, r1: Str, r2: Str)
    requires k in cfg.keys && k != [] && r1 != r2 && r1 != [] && r2 != []
    ensures Runs(cfg, EMPTY_STORE, PutActs(k, data, Conditional(0, r1), 0))
    ensures var s1 := Exec(cfg, EMPTY_STORE, PutActs(k, data, Conditional(0, r1), 0));
            && Runs(cfg, s1, PutActs(k, data, Conditional(1, r2), 0))
            && var s2 := Exec(cfg, s1, PutActs(k, data, Conditional(1, r2), 0));
               Decide(RowOf(s2, k), Conditional(0, r2)).Retry? && VersionOf(RowOf(s2, k)) == 2
  {
    hide Runs, Exec, Apply, PutActs;
    PutRuns(cfg, EMPTY_STORE, k, data, Conditional(0, r1), 0);
    var s1 := AfterPut(cfg, EMPTY_STORE, k, data, Conditional(0, r1), 0);
    PutRuns(cfg, s1, k, data, Conditional(1, r2), 0);
  }

  // ----- a conditional put that recovery completes -----

  /**
    On an empty store: a conditional put crashes once its payload is placed, and opening completes it. The
    object is there at version 1, but the retry with the same request id is told of a version conflict.
   */
  lemma RecoveredPutForgetsRequest(cfg: Config, k: Str, data: Str, r: Str, clock: nat -> int)
    requires k in cfg.keys && k != [] && r != []
    ensures Runs(cfg, EMPTY_STORE, PlaceActs(k, data, Conditional(0, r), 0))
    ensures var down := Apply(cfg, Exec(cfg, EMPTY_STORE, PlaceActs(k, data, Conditional(0, r), 0)), Crash);
            && |down.wal| == 1
            && var row := RowOf(Apply(cfg, RecoverTo(cfg, down, 1, clock), Checkpoint), k);
               && row == Some(Row(|data|, cfg.sum(data), 1, clock(0), false, []))
               && Decide(row, Conditional(0, r)) == Conflict
  {
    hide Runs, Exec, RecoverTo, PlaceActs, Redone, Done;
    PlaceRuns(cfg, EMPTY_STORE, k, data, Conditional(0, r), 0);
    var down := Apply(cfg, Exec(cfg, EMPTY_STORE, PlaceActs(k, data, Conditional(0, r), 0)), Crash);
    var begin := Begin(1, PUT, k, 1, cfg.sum(data), |data|);
    assert down.wal == [begin];
    BeginsAreOpen(down.wal);
    RecoverToNone(cfg, down, clock);
    RecoverToStep(cfg, down, 0, clock);
    RedoneFresh(cfg, data, begin, clock(0));
    Checkpointed(cfg, RecoverTo(cfg, down, 1, clock));
  }

  // ----- the class -----

  /** From s to t, the key got this row and these bytes, and no other key changed its row. */
  ghost predicate Wrote(cfg: Config, s: Store, t: Store, key: Str, data: Str, row: Row) {
    && RowOf(t, key) == Some(row) && FileOf(cfg, t, key) == Some(data)
    && (forall k :: k != key ==> RowOf(t, k) == RowOf(s, k))
    && (forall f :: f != cfg.digest(key) ==> (f in t.files <==> f in s.files) && (f in t.files ==> t.files[f] == s.files[f]))
  }

  /** The request id of the call is the one of the current row. */
  predicate IsRetry(row: Option<Row>, requestId: Str) {
    requestId != [] && row.Some? && row.value.requestId == requestId
  }

  lemma AfterPutWrote(cfg: Config, s: Store, k: Str, data: Str, mode: Mode, now: int)
    requires Decide(RowOf(s, k), mode).Go?
    ensures Wrote(cfg, s, AfterPut(cfg, s, k, data, mode, now), k, data, PutRow(cfg, s, k, data, mode, now))
  {
  }

  datatype Result<T> = Ok(value: T) | InvalidArgument | VersionConflict | NotFound | IoError | ChecksumMismatch

  class LocalObjectStore {
    const cfg: Config
    const log: Log
    var rows: map<Str, Row>
    var files: map<Str, Str>
    // Staged payloads that were never renamed into place.
    var staging: set<Str>
    // The records whose frames the log file holds.
    ghost var records: seq<WalRecord>

    ghost predicate Valid()
      reads this, log
    {
      log.bytes == WalFile(records)
    }

    ghost function State(): Store
      reads this, log
    {
      Store(rows, files, records, log.nextSeq, map[], Up)
    }

    /** Open: what is on disk, a torn log tail included, is a crashed state, and recovery runs from it to its end. */
    constructor (cfg: Config, rows: map<Str, Row>, files: map<Str, Str>, staging: set<Str>, bytes: Str, clock: nat -> int)
      ensures Valid() && this.staging == {} && this.cfg == cfg && fresh(log) && log.nextSeq == 1
      ensures var down := Store(rows, files, LoadWal(bytes), log.nextSeq, map[], Down(0));
              State() == Apply(cfg, RecoverTo(cfg, down, |LoadWal(bytes)|, clock), Checkpoint)
    {
      var found := Replay(bytes);
      this.cfg := cfg;
      log := new Log(bytes);
      this.rows, this.files, this.staging := rows, files, staging;
      this.records := [];
      new;
      Recover(found, clock);
    }

    /** The loop of the source over the replayed records, the removal of orphaned staging files, and the checkpoint. */
    method Recover(found: seq<WalRecord>, clock: nat -> int)
      modifies this, log
      ensures Valid() && files == old(files) && staging == {} && log.nextSeq == 1
      ensures var down := Store(old(rows), old(files), found, 1, map[], Down(0));
              State() == Apply(cfg, RecoverTo(cfg, down, |found|, clock), Checkpoint)
    {
      hide Redone, WalFile, Done, Apply, RecoverTo;
      ghost var down := Store(rows, files, found, 1, map[], Down(0));
      RecoverToNone(cfg, down, clock);
      var committed := CommittedSeqs(found);
      var i := 0;
      while i < |found|
        invariant 0 <= i <= |found| && files == old(files)
        invariant rows == RecoverTo(cfg, down, i, clock).rows
      {
        RecoverToStep(cfg, down, i, clock);
        RecoverRow(found[i], committed, clock(i));
        i := i + 1;
      }
      while staging != {}
        decreases |staging|
        invariant files == old(files) && rows == RecoverTo(cfg, down, |found|, clock).rows
      {
        var orphan :| orphan in staging;
        staging := staging - {orphan};
      }
      Checkpointed(cfg, RecoverTo(cfg, down, |found|, clock));
      log.Truncate();
      records := [];
    }

    /** The first pass over the records. */
    static method CommittedSeqs(found: seq<WalRecord>) returns (committed: set<nat>)
      ensures committed == Done(found)
    {
      hide Done;
      committed := {};
      NoneDone();
      var i := 0;
      while i < |found|
        invariant 0 <= i <= |found| && committed == Done(found[..i])
      {
        DoneGrows(found[..i], found[i]);
        assert found[..i + 1] == found[..i] + [found[i]];
        if found[i].Commit? {
          committed := committed + {found[i].sn};
        }
        i := i + 1;
      }
      assert found[..|found|] == found;
    }

    /** The body of that loop. */
    method RecoverRow(rec: WalRecord, committed: set<nat>, now: int)
      modifies this`rows
      ensures rows == if Unresolved(committed, rec)
                      then WithRow(old(rows), rec.key, Redone(cfg, old(RowOf(State(), rec.key)), old(FileOf(cfg, State(), rec.key)), rec, now))
                      else old(rows)
    {
      if rec.Commit? || rec.sn in committed {
        return;
      }
      var known := rec.key in rows;
      var current := if known then rows[rec.key].version else 0;
      if rec.op == PUT {
        if known && current >= rec.version {
          return;
        }
        var path := cfg.digest(rec.key);
        if path in files && cfg.sum(files[path]) == rec.checksum {
          rows := rows[rec.key := Row(rec.size, rec.checksum, rec.version, now, false, [])];
        }
      } else if known && !rows[rec.key].deleted {
        rows := rows[rec.key := rows[rec.key].(deleted := true)];
      }
    }

    method Record(rec: WalRecord)
      requires Valid()
      modifies this`records, log`bytes
      ensures Valid() && records == old(records) + [rec]
    {
      hide WalFile, EncodeBody;
      AppendedFile(records, rec);
      log.AppendRecord(rec);
      records := records + [rec];
    }

    /** The common path of the three puts: it either decides against writing, or is a full run of a put. */
    method DoPut(key: Str, data: Str, mode: Mode, now: int) returns (r: Result<Row>)
      requires Valid()
      modifies this, log
      ensures Valid()
      ensures var d := Decide(RowOf(old(State()), key), mode);
              && (d.Retry? ==> r == Ok(d.row) && State() == old(State()))
              && (d.Conflict? ==> r == VersionConflict && State() == old(State()))
              && (d.Go? ==> r == Ok(PutRow(cfg, old(State()), key, data, mode, now)) &&
                            State() == AfterPut(cfg, old(State()), key, data, mode, now))
    {
      hide WalFile;
      var currentVersion := 0;
      if key in rows {
        currentVersion := rows[key].version;
        if mode.Conditional? && mode.requestId != [] && rows[key].requestId == mode.requestId {
          return Ok(rows[key]);
        }
      }
      if mode.Conditional? && currentVersion != mode.expected {
        return VersionConflict;
      }
      var version;
      match mode {
        case Auto => version := currentVersion + 1;
        case Explicit(v) => version := v;
        case Conditional(e, _) => version := e + 1;
      }
      var row := Row(|data|, cfg.sum(data), version, now, false, if mode.Conditional? then mode.requestId else []);
      var sn := log.NextSeq();
      var begin := Begin(sn, PUT, key, version, row.checksum, row.size);
      Record(begin);
      files := files[cfg.digest(key) := data];
      rows := rows[key := row];
      Record(Commit(sn));
      return Ok(row);
    }

    method Put(key: Str, data: Str, now: int) returns (r: Result<Row>)
      requires Valid()
      modifies this, log
      ensures Valid()
      ensures if key == [] then r == InvalidArgument && State() == old(State())
              else && State() == AfterPut(cfg, old(State()), key, data, Auto, now)
                   && r == Ok(Row(|data|, cfg.sum(data), VersionOf(RowOf(old(State()), key)) + 1, now, false, []))
                   && Wrote(cfg, old(State()), State(), key, data, r.value)
    {
      hide WalFile, AfterPut, Wrote;
      if key == [] {
        return InvalidArgument;
      }
      AfterPutWrote(cfg, State(), key, data, Auto, now);
      r := DoPut(key, data, Auto, now);
    }

    method PutWithVersion(key: Str, data: Str, version: nat, now: int) returns (r: Result<Row>)
      requires Valid()
      modifies this, log
      ensures Valid()
      ensures if key == [] || version == 0 then r == InvalidArgument && State() == old(State())
              else && State() == AfterPut(cfg, old(State()), key, data, Explicit(version), now)
                   && r == Ok(Row(|data|, cfg.sum(data), version, now, false, []))
                   && Wrote(cfg, old(State()), State(), key, data, r.value)
    {
      hide WalFile, AfterPut, Wrote;
      if key == [] || version == 0 {
        return InvalidArgument;
      }
      AfterPutWrote(cfg, State(), key, data, Explicit(version), now);
      r := DoPut(key, data, Explicit(version), now);
    }

    method PutConditional(key: Str, data: Str, expected: nat, requestId: Str, now: int) returns (r: Result<Row>)
      requires Valid()
      modifies this, log
      ensures Valid()
      ensures key == [] ==> r == InvalidArgument && State() == old(State())
      ensures key != [] ==>
                var was, mode := RowOf(old(State()), key), Conditional(expected, requestId);
                && (r == VersionConflict <==> VersionOf(was) != expected && !IsRetry(was, requestId))
                && (r == VersionConflict ==> State() == old(State()))
                && (IsRetry(was, requestId) ==> r == Ok(was.value) && State() == old(State()))
                && (VersionOf(was) == expected && !IsRetry(was, requestId) ==>
                      && r == Ok(Row(|data|, cfg.sum(data), expected + 1, now, false, requestId))
                      && Wrote(cfg, old(State()), State(), key, data, r.value)
                      && Decide(was, mode).Go? && State() == AfterPut(cfg, old(State()), key, data, mode, now))
    {
      hide WalFile, AfterPut, Wrote;
      if key == [] {
        return InvalidArgument;
      }
      if Decide(RowOf(State(), key), Conditional(expected, requestId)).Go? {
        AfterPutWrote(cfg, State(), key, data, Conditional(expected, requestId), now);
      }
      r := DoPut(key, data, Conditional(expected, requestId), now);
    }

    method Delete(key: Str) returns (r: Result<()>)
      requires Valid()
      modifies this, log
      ensures Valid() && r == if Live(RowOf(old(State()), key)) then Ok(()) else NotFound
      ensures files == old(files) && rows == if r.Ok? then old(rows)[key := old(rows)[key].(deleted := true)] else old(rows)
      ensures key in cfg.keys ==>
                var acts := if r.Ok? then DeleteActs(key) else MissActs(key);
                Runs(cfg, old(State()), acts) && State() == Exec(cfg, old(State()), acts)
    {
      hide WalFile, Runs, Exec;
      ghost var was := State();
      var sn := log.NextSeq();
      var begin := Begin(sn, DELETE, key, 0, [], 0);
      Record(begin);
      if key in cfg.keys {
        DeleteRuns(cfg, was, key);
      }
      if key !in rows || rows[key].deleted {
        return NotFound;
      }
      rows := rows[key := rows[key].(deleted := true)];
      Record(Commit(sn));
      return Ok(());
    }

    /** Bytes are returned only under the checksum that was committed. */
    method Get(key: Str) returns (r: Result<Str>)
      requires Valid()
      ensures r.Ok? <==> Live(RowOf(State(), key)) && !Broken(cfg, RowOf(State(), key), FileOf(cfg, State(), key))
      ensures r.Ok? ==> FileOf(cfg, State(), key) == Some(r.value) && cfg.sum(r.value) == rows[key].checksum
      ensures r == NotFound <==> !Live(RowOf(State(), key))
      ensures r == IoError <==> Live(RowOf(State(), key)) && FileOf(cfg, State(), key) == None
      ensures r == ChecksumMismatch <==> && Live(RowOf(State(), key)) && FileOf(cfg, State(), key).Some?
                                         && cfg.sum(FileOf(cfg, State(), key).value) != rows[key].checksum
    {
      if key !in rows || rows[key].deleted {
        return NotFound;
      }
      var path := cfg.digest(key);
      if path !in files {
        return IoError;
      }
      if cfg.sum(files[path]) != rows[key].checksum {
        return ChecksumMismatch;
      }
      return Ok(files[path]);
    }
  }

  lemma RecoverToNone(cfg: Config, s: Store, clock: nat -> int)
    requires s.phase == Down(0)
    ensures RecoverTo(cfg, s, 0, clock) == s
  {
  }

  lemma RecoverToStep(cfg: Config, s: Store, n: nat, clock: nat -> int)
    requires s.phase == Down(0) && n < |s.wal|
    ensures var t, r := RecoverTo(cfg, s, n, clock), s.wal[n];
            RecoverTo(cfg, s, n + 1, clock).rows ==
            if Unresolved(Done(s.wal), r)
            then WithRow(t.rows, r.key, Redone(cfg, RowOf(t, r.key), FileOf(cfg, t, r.key), r, clock(n)))
            else t.rows
  {
    hide Redone, Done;
  }

  lemma Checkpointed(cfg: Config, t: Store)
    requires Enabled(cfg, t, Checkpoint)
    ensures Apply(cfg, t, Checkpoint) == t.(wal := [], nextSeq := 1, phase := Up)
  {
  }

  lemma NoneDone()
    ensures Done([]) == {}
  {
  }

  /** A put that completes can be read back at once. */
  lemma PutThenRead(cfg: Config, s: Store, k: Str, data: Str, mode: Mode, now: int)
    requires Decide(RowOf(s, k), mode).Go?
    ensures var t := AfterPut(cfg, s, k, data, mode, now);
            Live(RowOf(t, k)) && FileOf(cfg, t, k) == Some(data) && !Broken(cfg, RowOf(t, k), FileOf(cfg, t, k))
  {
  }
}
