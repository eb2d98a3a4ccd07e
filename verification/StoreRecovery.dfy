/** What a recovery does to one key, from whatever state the crash left. */
module StoreRecovery {
  import opened ByteStrings
  import opened Wire
  import opened Wal
  import opened ObjectStore
  import opened StoreInvariant

  // ----- the fold -----

  lemma RedoneCore(cfg: Config, row: Option<Row>, file: Option<Str>, r: WalRecord, now: int)
    requires r.Begin?
    ensures Core(Redone(cfg, row, file, r, now)) == Redone(cfg, Core(row), file, r, 0)
  {
  }

  lemma {:induction false} RedoConcat(cfg: Config, row: Option<Row>, file: Option<Str>, a: seq<WalRecord>, b: seq<WalRecord>)
    requires AllBegin(a) && AllBegin(b)
    ensures AllBegin(a + b) && Redo(cfg, row, file, a + b) == Redo(cfg, Redo(cfg, row, file, a), file, b)
    decreases |a|
  {
    if a == [] {
      assert a + b == b;
    } else {
      assert (a + b)[1..] == a[1..] + b;
      RedoConcat(cfg, Redone(cfg, row, file, a[0], 0), file, a[1..], b);
    }
  }

  lemma RedoOne(cfg: Config, row: Option<Row>, file: Option<Str>, r: WalRecord)
    requires r.Begin?
    ensures AllBegin([r]) && Redo(cfg, row, file, [r]) == Redone(cfg, row, file, r, 0)
  {
    assert [r][1..] == [];
  }

  lemma {:induction false} RedoDeletes(cfg: Config, row: Option<Row>, file: Option<Str>, open: seq<WalRecord>)
    requires Deletes(open) && AllBegin(open)
    ensures Redo(cfg, row, file, open) == if open == [] then row else Tombstoned(row)
    decreases |open|
  {
    if open != [] {
      assert open[0] in open;
      RedoDeletes(cfg, Tombstoned(row), file, open[1..]);
    }
  }

  lemma RedoLast(cfg: Config, row: Option<Row>, file: Option<Str>, open: seq<WalRecord>)
    requires open != [] && AllBegin(open) && Deletes(Init(open))
    ensures Redo(cfg, row, file, open) ==
            Redone(cfg, if Init(open) == [] then row else Tombstoned(row), file, Last(open), 0)
  {
    hide Redo, Redone;
    assert open == Init(open) + [Last(open)];
    RedoConcat(cfg, row, file, Init(open), [Last(open)]);
    RedoDeletes(cfg, row, file, Init(open));
    RedoOne(cfg, if Init(open) == [] then row else Tombstoned(row), file, Last(open));
  }

  // ----- recovery reaches the outcome -----

  lemma AheadSplits(s: Store, k: Str)
    requires s.phase.Down? && s.phase.n < |s.wal|
    ensures var r := s.wal[s.phase.n];
            Ahead(s, k) == (if Unresolved(Done(s.wal), r) && r.key == k then [r] else []) +
                           Ahead(s.(phase := Down(s.phase.n + 1)), k)
  {
    hide Done;
    var rest := s.wal[s.phase.n..];
    assert rest[0] == s.wal[s.phase.n] && rest[1..] == s.wal[s.phase.n + 1..];
  }

  /** One step of recovery does not change what recovery will reach. */
  lemma RecoverOneOutcome(cfg: Config, s: Store, now: int, k: Str)
    requires Enabled(cfg, s, RecoverOne(now))
    ensures Position(Apply(cfg, s, RecoverOne(now))) <= |s.wal|
    ensures Outcome(cfg, Apply(cfg, s, RecoverOne(now)), k) == Outcome(cfg, s, k)
  {
    hide Open, Done, Redone;
    var t, r := Apply(cfg, s, RecoverOne(now)), s.wal[s.phase.n];
    var file, rest := FileOf(cfg, s, k), Ahead(s.(phase := Down(s.phase.n + 1)), k);
    AheadSplits(s, k);
    assert Ahead(t, k) == rest;
    if Unresolved(Done(s.wal), r) && r.key == k {
      RedoneCore(cfg, RowOf(s, k), file, r, now);
      RedoneKeeps(cfg, RowOf(s, k), file, r, now);
      assert ([r] + rest)[1..] == rest;
    } else {
      assert [] + rest == rest;
    }
  }

  lemma RedoneKeeps(cfg: Config, row: Option<Row>, file: Option<Str>, r: WalRecord, now: int)
    requires r.Begin?
    ensures row.Some? ==> Redone(cfg, row, file, r, now).Some?
  {
  }

  /** When recovery is through, the rows are the outcome, and the log is empty. */
  lemma CheckpointOutcome(cfg: Config, s: Store, k: Str)
    requires Enabled(cfg, s, Checkpoint)
    ensures var t := Apply(cfg, s, Checkpoint);
            t.phase.Up? && Core(RowOf(t, k)) == Outcome(cfg, s, k) == Outcome(cfg, t, k) && OpenAll(t, k) == []
  {
    assert s.wal[s.phase.n..] == [];
  }

  // ----- the outcome of a crash while the store is up -----

  /** An unresolved BEGIN of k is left over from a delete that returned NotFound. */
  predicate Stale(s: Store, k: Str) {
    var open := OpenAll(s, k);
    if s.phase.Up? && k in s.flights && LoggedYet(s.flights[k]) && open != [] then Init(open) != [] else open != []
  }

  lemma UpOutcome(cfg: Config, s: Store, k: Str)
    requires Shape(cfg, s) && LogOK(s, k) && s.phase.Up?
    ensures var row := if Stale(s, k) then Tombstoned(Core(RowOf(s, k))) else Core(RowOf(s, k));
            Outcome(cfg, s, k) ==
            if k in s.flights && LoggedYet(s.flights[k])
            then Redone(cfg, row, FileOf(cfg, s, k), BeginOf(k, s.flights[k]), 0)
            else row
  {
    hide Open, Done, Redo, Redone;
    assert s.wal[0..] == s.wal;
    var row, file, open := Core(RowOf(s, k)), FileOf(cfg, s, k), OpenAll(s, k);
    if k in s.flights && LoggedYet(s.flights[k]) {
      RedoLast(cfg, row, file, open);
    } else {
      RedoDeletes(cfg, row, file, open);
    }
  }

  /**
    A crash leaves an idle key as it is, exactly if it is not the case that a delete which found
    nothing is left in the log while the key is live.
   */
  lemma IdleOutcomeIff(cfg: Config, s: Store, k: Str)
    requires Shape(cfg, s) && LogOK(s, k) && s.phase.Up? && k !in s.flights
    ensures Outcome(cfg, s, k) == Core(RowOf(s, k)) <==> !(Stale(s, k) && Live(RowOf(s, k)))
  {
    UpOutcome(cfg, s, k);
  }

  function Pre(f: Flight): Option<Row> {
    Core(f.before)
  }

  function Post(f: Flight): Option<Row> {
    if f.Putting? then Core(Some(f.row)) else Tombstoned(Core(f.before))
  }

  /** A crash at any stage of an operation leaves its key as before or as after, once its row is written as after. */
  lemma FlightOutcome(cfg: Config, s: Store, k: Str)
    requires Shape(cfg, s) && LogOK(s, k) && s.phase.Up? && k in s.flights && FlightOK(cfg, s, k) && !Stale(s, k)
    ensures Outcome(cfg, s, k) == Pre(s.flights[k]) || Outcome(cfg, s, k) == Post(s.flights[k])
    ensures s.flights[k].stage == Written ==> Outcome(cfg, s, k) == Post(s.flights[k])
  {
    hide Open, Done, LogOK, Stale, Outcome;
    UpOutcome(cfg, s, k);
  }

  /**
    What keeps an operation atomic although a stale delete strikes its key: it is a delete itself; its
    payload is in place under a newer version, so recovery completes it; or it wrote the very object that
    the row before it was the tombstone of.
   */
  predicate Rescued(cfg: Config, s: Store, k: Str)
    requires k in s.flights
  {
    var f, file := s.flights[k], FileOf(cfg, s, k);
    || f.Deleting?
    || ((f.stage == Logged || f.stage == Placed) && f.row.version > VersionOf(f.before) &&
        file.Some? && cfg.sum(file.value) == f.row.checksum)
    || (f.stage == Written && Tombstoned(Core(Some(f.row))) == Core(f.before))
  }

  /** Atomicity fails exactly if a stale delete meets a live row that nothing rescues. */
  lemma FlightOutcomeIff(cfg: Config, s: Store, k: Str)
    requires Shape(cfg, s) && LogOK(s, k) && s.phase.Up? && k in s.flights && FlightOK(cfg, s, k)
    ensures Outcome(cfg, s, k) == Pre(s.flights[k]) || Outcome(cfg, s, k) == Post(s.flights[k])
            <==> !(Stale(s, k) && Live(RowOf(s, k)) && !Rescued(cfg, s, k))
  {
    hide Open, Done, LogOK, Stale, Outcome;
    UpOutcome(cfg, s, k);
  }

  /** A live outcome whose payload file has another checksum. */
  predicate Broken(cfg: Config, row: Option<Row>, file: Option<Str>) {
    Live(row) && !(file.Some? && cfg.sum(file.value) == row.value.checksum)
  }

  /**
    A crash right after the payload was placed breaks the object exactly if the put has an explicit
    version that is not newer than a live row with another checksum, and no stale delete removes that row.
   */
  lemma PlacedOutcomeIff(cfg: Config, s: Store, k: Str)
    requires Shape(cfg, s) && LogOK(s, k) && InFlight(s, k, Placed) && FlightOK(cfg, s, k)
    ensures var f := s.flights[k];
            Broken(cfg, Outcome(cfg, s, k), FileOf(cfg, s, k)) <==>
            !Stale(s, k) && Live(f.before) && f.before.value.version >= f.row.version && f.before.value.checksum != f.row.checksum
  {
    hide Open, Done, LogOK, Stale, Outcome;
    UpOutcome(cfg, s, k);
  }

  // ----- a crash inside recovery -----

  /** The unresolved records of k that recovery has looked at. */
  function Behind(s: Store, k: Str): seq<WalRecord>
    requires s.phase.Down? && s.phase.n <= |s.wal|
  {
    Open(s.wal[..s.phase.n], Done(s.wal), k)
  }

  /** Recovery, started from row0, has come to where it is. */
  predicate Midway(cfg: Config, s: Store, k: Str, row0: Option<Row>)
    requires s.phase.Down? && s.phase.n <= |s.wal|
  {
    Core(RowOf(s, k)) == Redo(cfg, row0, FileOf(cfg, s, k), Behind(s, k))
  }

  lemma CrashIsMidway(cfg: Config, s: Store, k: Str)
    ensures Midway(cfg, Apply(cfg, s, Crash), k, Core(RowOf(s, k)))
  {
    assert s.wal[..0] == [];
  }

  lemma BehindGrows(s: Store, k: Str)
    requires s.phase.Down? && s.phase.n < |s.wal|
    ensures var r := s.wal[s.phase.n];
            Behind(s.(phase := Down(s.phase.n + 1)), k) ==
            Behind(s, k) + if Unresolved(Done(s.wal), r) && r.key == k then [r] else []
  {
    hide Open, Done;
    var r := s.wal[s.phase.n];
    assert s.wal[..s.phase.n + 1] == s.wal[..s.phase.n] + [r];
    OpenConcat(s.wal[..s.phase.n], [r], Done(s.wal), k);
    OpenOne(r, Done(s.wal), k);
  }

  lemma RecoverOneMidway(cfg: Config, s: Store, now: int, k: Str, row0: Option<Row>)
    requires Enabled(cfg, s, RecoverOne(now)) && Midway(cfg, s, k, row0)
    ensures Midway(cfg, Apply(cfg, s, RecoverOne(now)), k, row0)
  {
    hide Open, Done, Redone, Redo;
    var t, r := Apply(cfg, s, RecoverOne(now)), s.wal[s.phase.n];
    var file := FileOf(cfg, s, k);
    BehindGrows(s, k);
    assert Behind(t, k) == Behind(s.(phase := Down(s.phase.n + 1)), k);
    if Unresolved(Done(s.wal), r) && r.key == k {
      RedoneCore(cfg, RowOf(s, k), file, r, now);
      RedoneKeeps(cfg, RowOf(s, k), file, r, now);
      RedoConcat(cfg, row0, file, Behind(s, k), [r]);
      RedoOne(cfg, Redo(cfg, row0, file, Behind(s, k)), file, r);
    } else {
      assert Behind(s, k) + [] == Behind(s, k);
    }
  }

  lemma OpenIsBehindAhead(s: Store, k: Str)
    requires s.phase.Down? && s.phase.n <= |s.wal|
    ensures OpenAll(s, k) == Behind(s, k) + Ahead(s, k)
  {
    hide Open, Done;
    assert s.wal == s.wal[..s.phase.n] + s.wal[s.phase.n..];
    OpenConcat(s.wal[..s.phase.n], s.wal[s.phase.n..], Done(s.wal), k);
  }

  predicate HasDelete(open: seq<WalRecord>) {
    exists r :: r in open && r.Begin? && r.op != PUT
  }

  lemma DeadStaysDead(cfg: Config, row0: Option<Row>, file: Option<Str>, open: seq<WalRecord>)
    requires Deletes(open) && AllBegin(open) && open != []
    ensures !Live(Redo(cfg, row0, file, open))
  {
    RedoDeletes(cfg, row0, file, open);
  }

  /** Looking at the records twice is the same as once, unless a put came back to life behind a delete. */
  lemma RedoTwice(cfg: Config, row0: Option<Row>, file: Option<Str>, open: seq<WalRecord>)
    requires open != [] && AllBegin(open) && Deletes(Init(open))
    ensures var row := Redo(cfg, row0, file, open);
            Redo(cfg, row, file, open) == row <==> !(Live(row) && HasDelete(open))
  {
    hide Redo;
    RedoLast(cfg, row0, file, open);
    RedoLast(cfg, Redo(cfg, row0, file, open), file, open);
    if Init(open) == [] {
      assert open == [Last(open)];
    } else {
      assert Init(open)[0] in open && Init(open)[0] in Init(open);
    }
  }

  lemma RedoPart(cfg: Config, row0: Option<Row>, file: Option<Str>, a: seq<WalRecord>, b: seq<WalRecord>)
    requires AllBegin(a) && AllBegin(b) && Deletes(a)
    ensures AllBegin(a + b) && Redo(cfg, Redo(cfg, row0, file, a), file, a + b) == Redo(cfg, Redo(cfg, row0, file, a), file, b)
  {
    hide Redo;
    RedoDeletes(cfg, row0, file, a);
    RedoDeletes(cfg, Redo(cfg, row0, file, a), file, a);
    RedoConcat(cfg, Redo(cfg, row0, file, a), file, a, b);
  }

  /**
    A crash inside recovery changes what recovery reaches exactly if recovery was past all records of
    a live key one of whose unresolved records is a delete.
   */
  lemma RestartIff(cfg: Config, s: Store, k: Str, row0: Option<Row>)
    requires Shape(cfg, s) && LogOK(s, k) && s.phase.Down? && Midway(cfg, s, k, row0)
    ensures Outcome(cfg, Apply(cfg, s, Crash), k) == Outcome(cfg, s, k) <==>
            !(Ahead(s, k) == [] && Live(RowOf(s, k)) && HasDelete(OpenAll(s, k)))
  {
    hide Open, Done, Redo, Redone, HasDelete, Deletes;
    var a, b, file := Behind(s, k), Ahead(s, k), FileOf(cfg, s, k);
    var t := Apply(cfg, s, Crash);
    OpenIsBehindAhead(s, k);
    assert t.wal[0..] == s.wal;
    assert Ahead(t, k) == a + b;
    RedoNone(cfg, Core(RowOf(s, k)), file);
    if b == [] {
      assert a + b == a;
      if a == [] {
        NoDelete();
      } else {
        RedoTwice(cfg, row0, file, a);
      }
    } else {
      InitDeletes(a, b);
      RedoPart(cfg, row0, file, a, b);
    }
  }

  lemma NoDelete()
    ensures !HasDelete([])
  {
  }

  lemma InitDeletes(a: seq<WalRecord>, b: seq<WalRecord>)
    requires b != [] && Deletes(Init(a + b))
    ensures Deletes(a)
  {
    assert Init(a + b) == a + Init(b);
  }

  lemma RedoNone(cfg: Config, row: Option<Row>, file: Option<Str>)
    ensures AllBegin([]) && Redo(cfg, row, file, []) == row
  {
  }
}
