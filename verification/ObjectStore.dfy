/**
  The single-node object store as a state machine: metadata rows, payload files and the write-ahead
  log on disk, and the operations under way. Each stage of a write is one step, operations on
  different keys interleave, and the process may crash between any two steps, also while it recovers.
  A torn append to the log reads as no append, and a payload appears whole, by an atomic rename.
 */
module ObjectStore {
  import opened ByteStrings
  import opened Wire
  import opened Wal

  /** `digest` names the payload file of a key, `sum` is the payload checksum, `keys` are the keys in use. */
  datatype Config = Config(digest: Str -> Str, sum: Str -> Str, keys: set<Str>)

  ghost predicate DigestsDiffer(cfg: Config) {
    forall a, b :: a in cfg.keys && b in cfg.keys && cfg.digest(a) == cfg.digest(b) ==> a == b
  }

  /** One metadata row; a deleted row is a tombstone that keeps its version. */
  datatype Row = Row(size: nat, checksum: Str, version: nat, createdAt: int, deleted: bool, requestId: Str)

  /** Put, PutWithVersion and PutConditional. */
  datatype Mode = Auto | Explicit(version: nat) | Conditional(expected: nat, requestId: Str)

  datatype Stage = Started | Logged | Placed | Written

  /** An operation between two of its stages. `before` is the row of the key when it started. */
  datatype Flight =
    | Putting(sn: nat, stage: Stage, before: Option<Row>, row: Row, data: Str, mode: Mode)
    | Deleting(sn: nat, stage: Stage, before: Option<Row>)

  /** `Down(n)`: the process died, and recovery has gone through the first n records of the log. */
  datatype Phase = Up | Down(n: nat)

  datatype Store = Store(rows: map<Str, Row>, files: map<Str, Str>, wal: seq<WalRecord>,
                         nextSeq: nat, flights: map<Str, Flight>, phase: Phase)

  function RowOf(s: Store, k: Str): Option<Row> {
    if k in s.rows then Some(s.rows[k]) else None
  }

  function FileOf(cfg: Config, s: Store, k: Str): Option<Str> {
    if cfg.digest(k) in s.files then Some(s.files[cfg.digest(k)]) else None
  }

  function VersionOf(row: Option<Row>): nat {
    if row.Some? then row.value.version else 0
  }

  predicate Live(row: Option<Row>) {
    row.Some? && !row.value.deleted
  }

  /** A delete tombstones a live row and leaves any other as it is. */
  function Tombstoned(row: Option<Row>): Option<Row> {
    if Live(row) then Some(row.value.(deleted := true)) else row
  }

  // ----- what DoPut decides before it writes anything -----

  datatype Decision = Retry(row: Row) | Conflict | Go(version: nat)

  function Decide(row: Option<Row>, mode: Mode): Decision {
    if mode.Conditional? && mode.requestId != [] && row.Some? && row.value.requestId == mode.requestId then
      Retry(row.value)
    else if mode.Conditional? && VersionOf(row) != mode.expected then
      Conflict
    else
      Go(match mode
         case Auto => VersionOf(row) + 1
         case Explicit(v) => v
         case Conditional(e, _) => e + 1)
  }

  function RequestOf(mode: Mode): Str {
    if mode.Conditional? then mode.requestId else []
  }

  function NewRow(cfg: Config, data: Str, version: nat, mode: Mode, now: int): Row {
    Row(|data|, cfg.sum(data), version, now, false, RequestOf(mode))
  }

  function BeginOf(k: Str, f: Flight): WalRecord {
    if f.Putting? then Begin(f.sn, PUT, k, f.row.version, f.row.checksum, f.row.size)
    else Begin(f.sn, DELETE, k, 0, [], 0)
  }

  // ----- what Recover does with one record -----

  function Done(wal: seq<WalRecord>): set<nat> {
    set r | r in wal && r.Commit? :: r.sn
  }

  predicate Unresolved(done: set<nat>, r: WalRecord) {
    r.Begin? && r.sn !in done
  }

  /** The row of the record's key after recovery looked at an unresolved record. */
  function Redone(cfg: Config, row: Option<Row>, file: Option<Str>, r: WalRecord, now: int): Option<Row>
    requires r.Begin?
  {
    if r.op == PUT then
      if row.Some? && row.value.version >= r.version then row
      else if file.Some? && cfg.sum(file.value) == r.checksum then Some(Row(r.size, r.checksum, r.version, now, false, []))
      else row
    else
      Tombstoned(row)
  }

  function WithRow(rows: map<Str, Row>, k: Str, row: Option<Row>): map<Str, Row> {
    if row.Some? then rows[k := row.value] else rows
  }

  // ----- steps -----

  datatype Action =
    | StartPut(key: Str, data: Str, mode: Mode, now: int)
    | StartDelete(key: Str)
    | LogBegin(key: Str)
    | Place(key: Str)
    | Write(key: Str)
    | Tombstone(key: Str)
    | Finish(key: Str)
    | Crash
    | RecoverOne(now: int)
    | Checkpoint

  predicate InFlight(s: Store, k: Str, stage: Stage) {
    s.phase.Up? && k in s.flights && s.flights[k].stage == stage
  }

  /** A key's shard lock admits one operation at a time. */
  predicate Enabled(cfg: Config, s: Store, a: Action) {
    match a
    case StartPut(k, data, mode, _) =>
      s.phase.Up? && k in cfg.keys && k != [] && k !in s.flights && (mode.Explicit? ==> mode.version > 0)
    case StartDelete(k) => s.phase.Up? && k in cfg.keys && k !in s.flights
    case LogBegin(k) => InFlight(s, k, Started)
    case Place(k) => InFlight(s, k, Logged) && s.flights[k].Putting?
    case Write(k) => InFlight(s, k, Placed) && s.flights[k].Putting?
    case Tombstone(k) => InFlight(s, k, Logged) && s.flights[k].Deleting?
    case Finish(k) => InFlight(s, k, Written)
    case Crash => true
    case RecoverOne(_) => s.phase.Down? && s.phase.n < |s.wal|
    case Checkpoint => s.phase.Down? && s.phase.n == |s.wal|
  }

  function Moved(s: Store, k: Str, stage: Stage): Store
    requires k in s.flights
  {
    s.(flights := s.flights[k := s.flights[k].(stage := stage)])
  }

  function Apply(cfg: Config, s: Store, a: Action): Store
    requires Enabled(cfg, s, a)
  {
    match a
    case StartPut(k, data, mode, now) =>
      var d := Decide(RowOf(s, k), mode);
      if d.Go? then
        s.(nextSeq := s.nextSeq + 1,
           flights := s.flights[k := Putting(s.nextSeq, Started, RowOf(s, k), NewRow(cfg, data, d.version, mode, now), data, mode)])
      else s
    case StartDelete(k) =>
      s.(nextSeq := s.nextSeq + 1, flights := s.flights[k := Deleting(s.nextSeq, Started, RowOf(s, k))])
    case LogBegin(k) => Moved(s, k, Logged).(wal := s.wal + [BeginOf(k, s.flights[k])])
    case Place(k) => Moved(s, k, Placed).(files := s.files[cfg.digest(k) := s.flights[k].data])
    case Write(k) => Moved(s, k, Written).(rows := s.rows[k := s.flights[k].row])
    case Tombstone(k) =>
      // NotFound ends the operation without a COMMIT.
      if Live(RowOf(s, k)) then Moved(s, k, Written).(rows := WithRow(s.rows, k, Tombstoned(RowOf(s, k))))
      else s.(flights := s.flights - {k})
    case Finish(k) => s.(wal := s.wal + [Commit(s.flights[k].sn)], flights := s.flights - {k})
    case Crash => s.(flights := map[], phase := Down(0))
    case RecoverOne(now) =>
      var r := s.wal[s.phase.n];
      var t := s.(phase := Down(s.phase.n + 1));
      if Unresolved(Done(s.wal), r)
      then t.(rows := WithRow(s.rows, r.key, Redone(cfg, RowOf(s, r.key), FileOf(cfg, s, r.key), r, now)))
      else t
    case Checkpoint => s.(wal := [], nextSeq := 1, phase := Up)
  }

  const EMPTY_STORE := Store(map[], map[], [], 1, map[], Up)

  predicate IsRun(cfg: Config, states: seq<Store>, acts: seq<Action>) {
    && |states| == |acts| + 1
    && states[0] == EMPTY_STORE
    && forall i :: 0 <= i < |acts| ==> Enabled(cfg, states[i], acts[i]) && states[i + 1] == Apply(cfg, states[i], acts[i])
  }

  // ----- what the store will hold once it is open again -----

  /** A row up to its creation time and request id, which recovery does not restore. */
  function Core(row: Option<Row>): Option<Row> {
    if row.Some? then Some(row.value.(createdAt := 0, requestId := [])) else None
  }

  /** The unresolved records of key k, in log order. */
  function Open(wal: seq<WalRecord>, done: set<nat>, k: Str): (r: seq<WalRecord>)
    ensures forall x :: x in r <==> x in wal && Unresolved(done, x) && x.key == k
  {
    if wal == [] then [] else
      (if Unresolved(done, wal[0]) && wal[0].key == k then [wal[0]] else []) + Open(wal[1..], done, k)
  }

  predicate AllBegin(open: seq<WalRecord>) {
    forall r :: r in open ==> r.Begin?
  }

  /** Recovery as a fold over the unresolved records of one key. */
  function Redo(cfg: Config, row: Option<Row>, file: Option<Str>, open: seq<WalRecord>): Option<Row>
    requires AllBegin(open)
    decreases |open|
  {
    if open == [] then row else Redo(cfg, Redone(cfg, row, file, open[0], 0), file, open[1..])
  }

  function Position(s: Store): nat {
    if s.phase.Up? then 0 else s.phase.n
  }

  /** The unresolved records of k that recovery would still look at. */
  function Ahead(s: Store, k: Str): seq<WalRecord>
    requires Position(s) <= |s.wal|
  {
    Open(s.wal[Position(s)..], Done(s.wal), k)
  }

  /** The row of k, up to creation time and request id, after recovery has run to its end from here. */
  function Outcome(cfg: Config, s: Store, k: Str): Option<Row>
    requires Position(s) <= |s.wal|
  {
    Redo(cfg, Core(RowOf(s, k)), FileOf(cfg, s, k), Ahead(s, k))
  }
}
