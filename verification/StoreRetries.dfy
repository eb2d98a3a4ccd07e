/** Which retries of a conditional write are recognised. */
module StoreRetries {
  import opened ByteStrings
  import opened Wire
  import opened Wal
  import opened ObjectStore
  import opened StoreInvariant
  import opened StoreSafety
  import opened StoreVersions

  predicate SameWrite(row: Option<Row>, was: Option<Row>) {
    row.Some? && was.Some? && row.value.version == was.value.version && row.value.requestId == was.value.requestId
  }

  lemma RowStays(cfg: Config, s: Store, a: Action, k: Str)
    requires Enabled(cfg, s, a) && RowOf(Apply(cfg, s, a), k).Some? && !PutsRow(cfg, s, a, k)
    ensures SameWrite(RowOf(Apply(cfg, s, a), k), RowOf(s, k))
  {
    hide Decide, Done, NewRow;
  }

  /** The last step that wrote a row for k. */
  lemma {:induction false} LastPut(cfg: Config, states: seq<Store>, acts: seq<Action>, i: nat, k: Str) returns (q: nat)
    requires IsRun(cfg, states, acts) && i < |states| && RowOf(states[i], k).Some?
    ensures q < i && |states| == |acts| + 1 && PutsRow(cfg, states[q], acts[q], k)
    ensures SameWrite(RowOf(states[i], k), RowOf(states[q + 1], k))
    ensures forall m :: q < m < i ==> !PutsRow(cfg, states[m], acts[m], k)
  {
    hide IsRun, Apply, Enabled, PutsRow;
    FirstIsEmpty(cfg, states, acts);
    StepAt(cfg, states, acts, i - 1);
    if PutsRow(cfg, states[i - 1], acts[i - 1], k) {
      q := i - 1;
    } else {
      RowStays(cfg, states[i - 1], acts[i - 1], k);
      q := LastPut(cfg, states, acts, i - 1, k);
    }
  }

  lemma RecordStep(cfg: Config, s: Store, a: Action, r: WalRecord)
    requires Enabled(cfg, s, a) && r in Apply(cfg, s, a).wal && r !in s.wal && r.Begin? && r.op == PUT
    ensures a == LogBegin(r.key) && r.key in s.flights && s.flights[r.key].Putting?
    ensures r.version == s.flights[r.key].row.version
  {
    hide Decide, Redone, Done, NewRow;
  }

  /** The call that logged a BEGIN record of a put, at the version it was given. */
  lemma {:induction false} RecordCaller(cfg: Config, states: seq<Store>, acts: seq<Action>, i: nat, r: WalRecord) returns (p: nat)
    requires IsRun(cfg, states, acts) && i < |states| && r in states[i].wal && r.Begin? && r.op == PUT
    ensures p < i && |states| == |acts| + 1 && acts[p].StartPut? && acts[p].key == r.key
    ensures Decide(RowOf(states[p], r.key), acts[p].mode) == Go(r.version)
  {
    hide IsRun, Apply, Enabled, Decide;
    FirstIsEmpty(cfg, states, acts);
    StepAt(cfg, states, acts, i - 1);
    if r in states[i - 1].wal {
      p := RecordCaller(cfg, states, acts, i - 1, r);
    } else {
      RecordStep(cfg, states[i - 1], acts[i - 1], r);
      p := FlightCaller(cfg, states, acts, i - 1, r.key);
    }
  }

  /** A put that recovery completes gets the version of its record and no request id. */
  lemma RecoveredRow(cfg: Config, s: Store, a: Action, k: Str)
    requires Enabled(cfg, s, a) && PutsRow(cfg, s, a, k) && a != Write(k)
    ensures a.RecoverOne? && s.phase.Down? && s.phase.n < |s.wal|
    ensures var r, row := s.wal[s.phase.n], RowOf(Apply(cfg, s, a), k);
            && r.Begin? && r.op == PUT && r.key == k
            && row.Some? && row.value.version == r.version && row.value.requestId == []
  {
    hide Done;
  }

  lemma WrittenByCall(cfg: Config, states: seq<Store>, acts: seq<Action>, q: nat, k: Str) returns (p: nat)
    requires IsRun(cfg, states, acts) && DigestsDiffer(cfg) && k in cfg.keys && q < |acts| && acts[q] == Write(k)
    ensures p < q && |states| == |acts| + 1 && acts[p].StartPut? && acts[p].key == k && RowOf(states[q + 1], k).Some?
    ensures Decide(RowOf(states[p], k), acts[p].mode) == Go(RowOf(states[q + 1], k).value.version)
    ensures RowOf(states[q + 1], k).value.requestId == RequestOf(acts[p].mode)
  {
    hide IsRun, Inv, LogOK, SeqsOK, Shape, DigestsDiffer, Decide;
    StepAt(cfg, states, acts, q);
    RunInv(cfg, states, acts, q);
    KeyPart(cfg, states[q], k);
    p := FlightCaller(cfg, states, acts, q, k);
  }

  lemma WrittenByRecovery(cfg: Config, states: seq<Store>, acts: seq<Action>, q: nat, k: Str) returns (p: nat)
    requires IsRun(cfg, states, acts) && q < |acts| && q < |states| && PutsRow(cfg, states[q], acts[q], k) && acts[q] != Write(k)
    ensures p < q && |states| == |acts| + 1 && acts[p].StartPut? && acts[p].key == k && RowOf(states[q + 1], k).Some?
    ensures Decide(RowOf(states[p], k), acts[p].mode) == Go(RowOf(states[q + 1], k).value.version)
    ensures RowOf(states[q + 1], k).value.requestId == []
  {
    hide IsRun, Apply, Enabled, PutsRow, Decide;
    StepAt(cfg, states, acts, q);
    RecoveredRow(cfg, states[q], acts[q], k);
    p := RecordCaller(cfg, states, acts, q, states[q].wal[states[q].phase.n]);
  }

  /**
    The row of k at any moment: step q wrote it, for the call of step p. If that call was conditional with
    a request id, its retry is recognised exactly if the call wrote the row itself; if recovery did, the
    retry is a version conflict.
   */
  lemma RetryIffOwnWrite(cfg: Config, states: seq<Store>, acts: seq<Action>, i: nat, k: Str) returns (p: nat, q: nat)
    requires IsRun(cfg, states, acts) && DigestsDiffer(cfg) && k in cfg.keys && i < |states| && RowOf(states[i], k).Some?
    ensures p < q < i && |states| == |acts| + 1
    ensures PutsRow(cfg, states[q], acts[q], k) && forall m :: q < m < i ==> !PutsRow(cfg, states[m], acts[m], k)
    ensures acts[p].StartPut? && acts[p].key == k
    ensures Decide(RowOf(states[p], k), acts[p].mode) == Go(RowOf(states[i], k).value.version)
    ensures var mode, now := acts[p].mode, Decide(RowOf(states[i], k), acts[p].mode);
            mode.Conditional? && mode.requestId != [] ==>
              && (now.Retry? <==> acts[q] == Write(k))
              && (acts[q] == Write(k) || now == Conflict)
  {
    hide IsRun, DigestsDiffer, PutsRow;
    q := LastPut(cfg, states, acts, i, k);
    if acts[q] == Write(k) {
      p := WrittenByCall(cfg, states, acts, q, k);
    } else {
      p := WrittenByRecovery(cfg, states, acts, q, k);
    }
  }
}
