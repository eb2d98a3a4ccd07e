/** What every step of the object store keeps, and what it does to the outcome of a recovery. */
module StoreInvariant {
  import opened ByteStrings
  import opened Wire
  import opened Wal
  import opened ObjectStore

  predicate Deletes(open: seq<WalRecord>) {
    forall r :: r in open ==> r.Begin? && r.op != PUT
  }

  function Init(s: seq<WalRecord>): seq<WalRecord>
    requires s != []
  {
    s[..|s| - 1]
  }

  function Last(s: seq<WalRecord>): WalRecord
    requires s != []
  {
    s[|s| - 1]
  }

  /** All unresolved records of k, whether recovery has passed them or not. */
  function OpenAll(s: Store, k: Str): seq<WalRecord> {
    Open(s.wal, Done(s.wal), k)
  }

  // ----- the invariant -----

  predicate LoggedYet(f: Flight) {
    f.stage != Started
  }

  /**
    The unresolved records of a key: deletes that found nothing, and behind them the BEGIN of the
    operation under way, once it is logged. After a crash that BEGIN may be the last record too.
   */
  predicate LogOK(s: Store, k: Str) {
    var open := OpenAll(s, k);
    if s.phase.Down? then
      open == [] || Deletes(Init(open))
    else if k !in s.flights then
      Deletes(open)
    else
      var f := s.flights[k];
      var stale := if LoggedYet(f) && open != [] then Init(open) else open;
      && (LoggedYet(f) ==> open != [] && Last(open) == BeginOf(k, f))
      && Deletes(stale) && (forall r :: r in stale ==> r.sn != f.sn)
  }

  predicate WrittenRow(cfg: Config, row: Row, data: Str) {
    row.checksum == cfg.sum(data) && row.size == |data| && !row.deleted && row.version > 0
  }

  /** What the flight of k says about its row and its payload file. */
  predicate FlightOK(cfg: Config, s: Store, k: Str)
    requires k in s.flights
  {
    var f := s.flights[k];
    match f
    case Putting(_, stage, before, row, data, mode) =>
      && RowOf(s, k) == (if stage == Written then Some(row) else before)
      && (stage == Placed || stage == Written ==> FileOf(cfg, s, k) == Some(data))
      && WrittenRow(cfg, row, data) && Decide(before, mode) == Go(row.version) && row.requestId == RequestOf(mode)
    case Deleting(_, stage, before) =>
      && stage != Placed
      && RowOf(s, k) == (if stage == Written then Tombstoned(before) else before)
      && (stage == Written ==> Live(before))
  }

  /** Sequence numbers tell operations apart. */
  predicate SeqsOK(s: Store) {
    && (s.phase.Up? ==> forall r :: r in s.wal ==> r.sn < s.nextSeq)
    && (forall k :: k in s.flights ==> s.flights[k].sn < s.nextSeq)
    && (forall j, k :: j in s.flights && k in s.flights && s.flights[j].sn == s.flights[k].sn ==> j == k)
    && (forall k, r :: k in s.flights && r in s.wal && r.sn == s.flights[k].sn ==> r.Begin? && r.key == k)
  }

  predicate Shape(cfg: Config, s: Store) {
    && Position(s) <= |s.wal|
    && (s.phase.Down? ==> s.flights == map[])
    && (forall k :: k in s.flights ==> k in cfg.keys)
    && (forall r :: r in s.wal && r.Begin? ==> r.key in cfg.keys)
  }

  predicate Inv(cfg: Config, s: Store) {
    && Shape(cfg, s) && SeqsOK(s)
    && (forall k :: k in cfg.keys ==> LogOK(s, k))
    && (forall k :: k in s.flights ==> FlightOK(cfg, s, k))
  }

  lemma InitOK(cfg: Config)
    ensures Inv(cfg, EMPTY_STORE)
  {
  }

  // ----- the unresolved records of a growing log -----

  lemma {:induction false} OpenConcat(a: seq<WalRecord>, b: seq<WalRecord>, done: set<nat>, k: Str)
    ensures Open(a + b, done, k) == Open(a, done, k) + Open(b, done, k)
  {
    if a == [] {
      assert a + b == b;
    } else {
      assert (a + b)[1..] == a[1..] + b;
      OpenConcat(a[1..], b, done, k);
    }
  }

  lemma DoneGrows(wal: seq<WalRecord>, r: WalRecord)
    ensures Done(wal + [r]) == Done(wal) + if r.Commit? then {r.sn} else {}
  {
  }

  lemma OpenOne(r: WalRecord, done: set<nat>, k: Str)
    ensures Open([r], done, k) == if Unresolved(done, r) && r.key == k then [r] else []
  {
    assert [r][1..] == [];
    assert Open([], done, k) == [];
  }

  lemma BeginAppended(wal: seq<WalRecord>, r: WalRecord, k: Str)
    requires r.Begin? && r.sn !in Done(wal)
    ensures Open(wal + [r], Done(wal + [r]), k) == Open(wal, Done(wal), k) + if r.key == k then [r] else []
  {
    hide Open, Done;
    DoneGrows(wal, r);
    assert Done(wal) + {} == Done(wal);
    OpenConcat(wal, [r], Done(wal), k);
    OpenOne(r, Done(wal), k);
  }

  lemma {:induction false} OpenWithout(wal: seq<WalRecord>, done: set<nat>, q: nat, k: Str)
    requires forall r :: r in Open(wal, done, k) ==> r.sn != q
    ensures Open(wal, done + {q}, k) == Open(wal, done, k)
  {
    if wal != [] {
      OpenWithout(wal[1..], done, q, k);
    }
  }

  lemma {:induction false} OpenWithoutLast(wal: seq<WalRecord>, done: set<nat>, q: nat, k: Str)
    requires var open := Open(wal, done, k);
             open != [] && Last(open).sn == q && forall r :: r in Init(open) ==> r.sn != q
    ensures Open(wal, done + {q}, k) == Init(Open(wal, done, k))
  {
    var open := Open(wal, done, k);
    var rest := Open(wal[1..], done, k);
    if Unresolved(done, wal[0]) && wal[0].key == k {
      assert open == [wal[0]] + rest;
      if rest == [] {
        assert open == [wal[0]];
        OpenWithout(wal[1..], done, q, k);
      } else {
        assert Init(open) == [wal[0]] + Init(rest) && Last(open) == Last(rest);
        assert wal[0] in Init(open);
        OpenWithoutLast(wal[1..], done, q, k);
      }
    } else {
      assert open == rest;
      OpenWithoutLast(wal[1..], done, q, k);
    }
  }

  lemma CommitAppended(wal: seq<WalRecord>, q: nat, k: Str)
    ensures Open(wal + [Commit(q)], Done(wal + [Commit(q)]), k) == Open(wal, Done(wal) + {q}, k)
  {
    DoneGrows(wal, Commit(q));
    OpenConcat(wal, [Commit(q)], Done(wal) + {q}, k);
    OpenOne(Commit(q), Done(wal) + {q}, k);
  }

  // ----- every step keeps the invariant -----

  /** Nothing about key j changed. */
  predicate SameKey(cfg: Config, s: Store, t: Store, j: Str) {
    && OpenAll(t, j) == OpenAll(s, j)
    && (j in t.flights <==> j in s.flights)
    && (j in s.flights ==> t.flights[j] == s.flights[j] && RowOf(t, j) == RowOf(s, j) && FileOf(cfg, t, j) == FileOf(cfg, s, j))
  }

  lemma SameKeyOK(cfg: Config, s: Store, t: Store, j: Str)
    requires s.phase == t.phase && SameKey(cfg, s, t, j)
    ensures LogOK(s, j) ==> LogOK(t, j)
    ensures j in t.flights && FlightOK(cfg, s, j) ==> FlightOK(cfg, t, j)
  {
    hide OpenAll, Deletes, FileOf, RowOf, Tombstoned;
  }

  /** A step that touches one key. */
  lemma OneKeyInv(cfg: Config, s: Store, k: Str, t: Store)
    requires Inv(cfg, s) && s.phase == t.phase && Shape(cfg, t) && SeqsOK(t)
    requires LogOK(t, k) && (k in t.flights ==> FlightOK(cfg, t, k))
    requires forall j :: j in cfg.keys && j != k ==> SameKey(cfg, s, t, j)
    ensures Inv(cfg, t)
  {
    hide LogOK, FlightOK, SameKey, SeqsOK;
    forall j | j in cfg.keys
      ensures LogOK(t, j) && (j in t.flights ==> FlightOK(cfg, t, j))
    {
      if j != k {
        SameKeyOK(cfg, s, t, j);
        SameFlight(cfg, s, t, j);
      }
    }
  }

  lemma SameFlight(cfg: Config, s: Store, t: Store, j: Str)
    requires SameKey(cfg, s, t, j)
    ensures j in t.flights <==> j in s.flights
  {
  }

  lemma KeyPart(cfg: Config, s: Store, k: Str)
    requires Inv(cfg, s) && k in cfg.keys
    ensures Shape(cfg, s) && SeqsOK(s) && LogOK(s, k) && (k in s.flights ==> FlightOK(cfg, s, k))
  {
  }

  lemma StartSeqs(cfg: Config, s: Store, k: Str, f: Flight, t: Store)
    requires Shape(cfg, s) && SeqsOK(s) && s.phase.Up? && k in cfg.keys && f.sn == s.nextSeq
    requires t == s.(nextSeq := s.nextSeq + 1, flights := s.flights[k := f])
    ensures Shape(cfg, t) && SeqsOK(t)
  {
  }

  lemma StartInv(cfg: Config, s: Store, k: Str, f: Flight, t: Store)
    requires Inv(cfg, s) && s.phase.Up? && k in cfg.keys && k !in s.flights
    requires f.sn == s.nextSeq && f.stage == Started && f.before == RowOf(s, k)
    requires f.Putting? ==> WrittenRow(cfg, f.row, f.data) && Decide(f.before, f.mode) == Go(f.row.version) && f.row.requestId == RequestOf(f.mode)
    requires t == s.(nextSeq := s.nextSeq + 1, flights := s.flights[k := f])
    ensures Inv(cfg, t)
  {
    hide Inv, Open, Done, Shape, SeqsOK;
    KeyPart(cfg, s, k);
    StartSeqs(cfg, s, k, f, t);
    NewSeq(s, k);
    OneKeyInv(cfg, s, k, t);
  }

  lemma NewSeq(s: Store, k: Str)
    requires SeqsOK(s) && s.phase.Up?
    ensures forall r :: r in OpenAll(s, k) ==> r.sn != s.nextSeq
  {
  }

  lemma LogBeginSeqs(cfg: Config, s: Store, k: Str)
    requires Shape(cfg, s) && SeqsOK(s) && InFlight(s, k, Started)
    ensures Shape(cfg, Apply(cfg, s, LogBegin(k))) && SeqsOK(Apply(cfg, s, LogBegin(k)))
  {
    var t := Apply(cfg, s, LogBegin(k));
    assert forall r :: r in t.wal ==> r in s.wal || r == BeginOf(k, s.flights[k]);
  }

  lemma LogBeginInv(cfg: Config, s: Store, k: Str)
    requires Inv(cfg, s) && InFlight(s, k, Started)
    ensures Inv(cfg, Apply(cfg, s, LogBegin(k)))
  {
    hide Inv, Open, Done, Shape, SeqsOK;
    var t, r := Apply(cfg, s, LogBegin(k)), BeginOf(k, s.flights[k]);
    FlightKey(cfg, s, k);
    KeyPart(cfg, s, k);
    LogBeginSeqs(cfg, s, k);
    NotDone(s, k);
    forall j
      ensures OpenAll(t, j) == OpenAll(s, j) + if j == k then [r] else []
    {
      BeginAppended(s.wal, r, j);
    }
    assert Init(OpenAll(t, k)) == OpenAll(s, k);
    OneKeyInv(cfg, s, k, t);
  }

  lemma FlightKey(cfg: Config, s: Store, k: Str)
    requires Inv(cfg, s) && k in s.flights
    ensures k in cfg.keys
  {
  }

  lemma NotDone(s: Store, k: Str)
    requires SeqsOK(s) && k in s.flights
    ensures s.flights[k].sn !in Done(s.wal)
  {
  }

  lemma StageSeqs(cfg: Config, s: Store, k: Str, stage: Stage, t: Store)
    requires Shape(cfg, s) && SeqsOK(s) && s.phase.Up? && k in s.flights
    requires t.wal == s.wal && t.nextSeq == s.nextSeq && t.phase == s.phase
    requires t.flights == s.flights[k := s.flights[k].(stage := stage)]
    ensures Shape(cfg, t) && SeqsOK(t)
  {
    forall j | j in t.flights
      ensures j in s.flights && t.flights[j].sn == s.flights[j].sn
    {
    }
  }

  /** Steps that touch neither the log nor the other flights. */
  lemma StageInv(cfg: Config, s: Store, k: Str, stage: Stage, t: Store)
    requires Inv(cfg, s) && s.phase.Up? && k in s.flights && LoggedYet(s.flights[k]) && stage != Started
    requires t.wal == s.wal && t.nextSeq == s.nextSeq && t.phase == s.phase
    requires t.flights == s.flights[k := s.flights[k].(stage := stage)]
    requires FlightOK(cfg, t, k)
    requires forall j :: j in cfg.keys && j != k ==> RowOf(t, j) == RowOf(s, j) && FileOf(cfg, t, j) == FileOf(cfg, s, j)
    ensures Inv(cfg, t)
  {
    hide Inv, Open, Done, Shape, SeqsOK, FlightOK;
    FlightKey(cfg, s, k);
    KeyPart(cfg, s, k);
    StageSeqs(cfg, s, k, stage, t);
    assert OpenAll(t, k) == OpenAll(s, k);
    OneKeyInv(cfg, s, k, t);
  }

  lemma PlaceInv(cfg: Config, s: Store, k: Str)
    requires Inv(cfg, s) && DigestsDiffer(cfg) && Enabled(cfg, s, Place(k))
    ensures Inv(cfg, Apply(cfg, s, Place(k)))
  {
    hide Inv, LogOK, SeqsOK, Shape;
    FlightKey(cfg, s, k);
    KeyPart(cfg, s, k);
    StageInv(cfg, s, k, Placed, Apply(cfg, s, Place(k)));
  }

  lemma WriteInv(cfg: Config, s: Store, k: Str)
    requires Inv(cfg, s) && Enabled(cfg, s, Write(k))
    ensures Inv(cfg, Apply(cfg, s, Write(k)))
  {
    hide Inv, LogOK, SeqsOK, Shape;
    FlightKey(cfg, s, k);
    KeyPart(cfg, s, k);
    StageInv(cfg, s, k, Written, Apply(cfg, s, Write(k)));
  }

  lemma TombstoneInv(cfg: Config, s: Store, k: Str)
    requires Inv(cfg, s) && Enabled(cfg, s, Tombstone(k))
    ensures Inv(cfg, Apply(cfg, s, Tombstone(k)))
  {
    hide Inv, LogOK, SeqsOK, Shape;
    FlightKey(cfg, s, k);
    KeyPart(cfg, s, k);
    var t := Apply(cfg, s, Tombstone(k));
    if Live(RowOf(s, k)) {
      StageInv(cfg, s, k, Written, t);
    } else {
      GivenUp(cfg, s, k, t);
    }
  }

  lemma EndSeqs(cfg: Config, s: Store, k: Str, more: seq<WalRecord>, t: Store)
    requires Shape(cfg, s) && SeqsOK(s) && s.phase.Up? && k in s.flights
    requires more == [] || more == [Commit(s.flights[k].sn)]
    requires t == s.(wal := s.wal + more, flights := s.flights - {k})
    ensures Shape(cfg, t) && SeqsOK(t)
  {
    assert forall r :: r in t.wal ==> r in s.wal || r in more;
  }

  /** A delete that found nothing leaves its BEGIN behind. */
  lemma GivenUp(cfg: Config, s: Store, k: Str, t: Store)
    requires Inv(cfg, s) && s.phase.Up? && k in s.flights && s.flights[k].Deleting? && LoggedYet(s.flights[k])
    requires t == s.(flights := s.flights - {k})
    ensures Inv(cfg, t)
  {
    hide Inv, Open, Done, Shape, SeqsOK, FlightOK;
    FlightKey(cfg, s, k);
    KeyPart(cfg, s, k);
    assert s.wal + [] == s.wal;
    EndSeqs(cfg, s, k, [], t);
    var open := OpenAll(s, k);
    assert OpenAll(t, k) == open == Init(open) + [Last(open)];
    OneKeyInv(cfg, s, k, t);
  }

  lemma FinishOpen(cfg: Config, s: Store, k: Str, j: Str)
    requires SeqsOK(s) && LogOK(s, k) && InFlight(s, k, Written)
    ensures OpenAll(s, k) != []
    ensures OpenAll(Apply(cfg, s, Finish(k)), j) == if j == k then Init(OpenAll(s, k)) else OpenAll(s, j)
  {
    hide Open, Done;
    var q := s.flights[k].sn;
    CommitAppended(s.wal, q, j);
    if j == k {
      OpenWithoutLast(s.wal, Done(s.wal), q, k);
    } else {
      OpenWithout(s.wal, Done(s.wal), q, j);
    }
  }

  lemma FinishInv(cfg: Config, s: Store, k: Str)
    requires Inv(cfg, s) && Enabled(cfg, s, Finish(k))
    ensures Inv(cfg, Apply(cfg, s, Finish(k)))
  {
    hide Inv, Open, Done, Shape, SeqsOK, FlightOK;
    FlightKey(cfg, s, k);
    KeyPart(cfg, s, k);
    var t := Apply(cfg, s, Finish(k));
    EndSeqs(cfg, s, k, [Commit(s.flights[k].sn)], t);
    forall j
      ensures OpenAll(s, k) != [] && OpenAll(t, j) == if j == k then Init(OpenAll(s, k)) else OpenAll(s, j)
    {
      FinishOpen(cfg, s, k, j);
    }
    OneKeyInv(cfg, s, k, t);
  }

  lemma CrashInv(cfg: Config, s: Store)
    requires Inv(cfg, s)
    ensures Inv(cfg, Apply(cfg, s, Crash))
  {
    hide Open, Done;
    var t := Apply(cfg, s, Crash);
    forall j | j in cfg.keys
      ensures LogOK(t, j)
    {
      assert LogOK(s, j);
      assert OpenAll(t, j) == OpenAll(s, j);
    }
  }

  lemma RecoverOneInv(cfg: Config, s: Store, now: int)
    requires Inv(cfg, s) && Enabled(cfg, s, RecoverOne(now))
    ensures Inv(cfg, Apply(cfg, s, RecoverOne(now)))
  {
    hide Open, Done;
    var t := Apply(cfg, s, RecoverOne(now));
    forall j | j in cfg.keys
      ensures LogOK(t, j)
    {
      assert LogOK(s, j);
      assert OpenAll(t, j) == OpenAll(s, j);
    }
  }

  lemma CheckpointInv(cfg: Config, s: Store)
    requires Inv(cfg, s) && Enabled(cfg, s, Checkpoint)
    ensures Inv(cfg, Apply(cfg, s, Checkpoint))
  {
  }

  lemma StartPutInv(cfg: Config, s: Store, k: Str, data: Str, mode: Mode, now: int)
    requires Inv(cfg, s) && Enabled(cfg, s, StartPut(k, data, mode, now))
    ensures Inv(cfg, Apply(cfg, s, StartPut(k, data, mode, now)))
  {
    hide Inv;
    var d := Decide(RowOf(s, k), mode);
    if d.Go? {
      var f := Putting(s.nextSeq, Started, RowOf(s, k), NewRow(cfg, data, d.version, mode, now), data, mode);
      StartInv(cfg, s, k, f, Apply(cfg, s, StartPut(k, data, mode, now)));
    }
  }

  lemma StepInv(cfg: Config, s: Store, a: Action)
    requires Inv(cfg, s) && DigestsDiffer(cfg) && Enabled(cfg, s, a)
    ensures Inv(cfg, Apply(cfg, s, a))
  {
    hide Inv, DigestsDiffer;
    match a
    case StartPut(k, data, mode, now) => StartPutInv(cfg, s, k, data, mode, now);
    case StartDelete(k) => StartInv(cfg, s, k, Deleting(s.nextSeq, Started, RowOf(s, k)), Apply(cfg, s, a));
    case LogBegin(k) => LogBeginInv(cfg, s, k);
    case Place(k) => PlaceInv(cfg, s, k);
    case Write(k) => WriteInv(cfg, s, k);
    case Tombstone(k) => TombstoneInv(cfg, s, k);
    case Finish(k) => FinishInv(cfg, s, k);
    case Crash => CrashInv(cfg, s);
    case RecoverOne(now) => RecoverOneInv(cfg, s, now);
    case Checkpoint => CheckpointInv(cfg, s);
  }

  lemma {:induction false} RunInv(cfg: Config, states: seq<Store>, acts: seq<Action>, i: nat)
    requires IsRun(cfg, states, acts) && DigestsDiffer(cfg) && i < |states|
    ensures Inv(cfg, states[i])
  {
    hide Inv, Apply, Enabled, DigestsDiffer;
    if i == 0 {
      InitOK(cfg);
    } else {
      RunInv(cfg, states, acts, i - 1);
      StepInv(cfg, states[i - 1], acts[i - 1]);
      assert states[i] == Apply(cfg, states[i - 1], acts[i - 1]);
    }
  }
}
