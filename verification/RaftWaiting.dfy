/** What a caller that waits for its proposal is told, read off the states it looks at. */
module RaftWaiting {
  import opened ByteStrings
  import opened RaftTypes
  import opened RaftHandlers
  import opened RaftCluster
  import opened RaftInvariants
  import opened RaftFrame
  import opened RaftRuns
  import opened RaftSafety

  // ----- any sequence of looks -----

  predicate OfTerm(log: seq<LogEntry>, index: nat, term: nat) {
    if 1 <= index <= |log| then log[index - 1].term == term else term == 0
  }

  /** Not applied, no newer term, and no entry of another term at the index. */
  predicate Pending(s: NodeState, index: nat, term: nat) {
    |s.applied| < index && s.term <= term && (index <= |s.log| ==> s.log[index - 1].term == term)
  }

  predicate Reached(s: NodeState, index: nat, term: nat) {
    |s.applied| >= index && OfTerm(s.log, index, term)
  }

  /** A newer term, or an entry of another term at the index. */
  predicate Overtaken(s: NodeState, index: nat, term: nat) {
    if |s.applied| < index
    then s.term > term || (index <= |s.log| && s.log[index - 1].term != term)
    else !OfTerm(s.log, index, term)
  }

  predicate FirstDecided(looks: seq<NodeState>, m: nat, index: nat, term: nat) {
    m < |looks| && !Pending(looks[m], index, term) && forall l :: 0 <= l < m ==> Pending(looks[l], index, term)
  }

  lemma LookIff(s: NodeState, index: nat, term: nat)
    requires WfLog(s.log)
    ensures Look(s, index, term) == Undecided <==> Pending(s, index, term)
    ensures Look(s, index, term) == Applied <==> Reached(s, index, term)
    ensures Look(s, index, term) == Lost <==> Overtaken(s, index, term)
  {
  }

  /**
    WaitApplied times out exactly if every look finds the entry pending. Otherwise the first look that does
    not decides: Ok exactly if the index is applied with the given term there, and lost exactly if there is a
    newer term or an entry of another term.
   */
  lemma {:induction false} AwaitDecides(looks: seq<NodeState>, index: nat, term: nat)
    requires forall m :: 0 <= m < |looks| ==> WfLog(looks[m].log)
    ensures Await(looks, index, term) == Undecided <==> forall m :: 0 <= m < |looks| ==> Pending(looks[m], index, term)
    ensures Await(looks, index, term) == Applied <==>
            exists m: nat :: FirstDecided(looks, m, index, term) && Reached(looks[m], index, term)
    ensures Await(looks, index, term) == Lost <==>
            exists m: nat :: FirstDecided(looks, m, index, term) && Overtaken(looks[m], index, term)
  {
    hide Look, Pending, Reached, Overtaken, WfLog;
    if looks != [] {
      var rest := looks[1..];
      LookIff(looks[0], index, term);
      AwaitDecides(rest, index, term);
      if Pending(looks[0], index, term) {
        forall m: nat | m < |rest|
          ensures FirstDecided(rest, m, index, term) <==> FirstDecided(looks, m + 1, index, term)
        {
          Shifted(looks, m, index, term);
        }
        forall m: nat | FirstDecided(looks, m, index, term)
          ensures m > 0 && FirstDecided(rest, m - 1, index, term) && rest[m - 1] == looks[m]
        {
          Shifted(looks, m - 1, index, term);
        }
        assert forall m :: 0 < m < |looks| ==> looks[m] == rest[m - 1];
      } else {
        assert FirstDecided(looks, 0, index, term);
        assert forall m: nat :: FirstDecided(looks, m, index, term) ==> m == 0;
      }
    }
  }

  lemma Shifted(looks: seq<NodeState>, m: nat, index: nat, term: nat)
    requires m + 1 < |looks| && Pending(looks[0], index, term)
    ensures FirstDecided(looks[1..], m, index, term) <==> FirstDecided(looks, m + 1, index, term)
  {
    hide Pending;
    var rest := looks[1..];
    assert forall l :: 0 <= l < |rest| ==> rest[l] == looks[l + 1];
    assert forall l :: 0 < l <= m ==> looks[l] == rest[l - 1];
  }

  // ----- proposals -----

  predicate EntryPending(s: NodeState, e: LogEntry)
    requires e.index >= 1
  {
    |s.applied| < e.index && s.term <= e.term && (e.index <= |s.log| ==> s.log[e.index - 1] == e)
  }

  predicate EntryApplied(s: NodeState, e: LogEntry)
    requires e.index >= 1
  {
    |s.applied| >= e.index && s.applied[e.index - 1] == e
  }

  /** The term rose before the entry was applied, or another entry is in its place. */
  predicate EntryLost(s: NodeState, e: LogEntry)
    requires e.index >= 1
  {
    if |s.applied| < e.index
    then s.term > e.term || (e.index <= |s.log| && s.log[e.index - 1] != e)
    else s.applied[e.index - 1] != e
  }

  /**
    At every later state of a run, a look for the stamped index and term tells exactly whether the proposed
    entry itself is pending, applied, or lost.
   */
  lemma LookTells(states: seq<Cluster>, acts: seq<Action>, i: nat, j: nat)
    requires IsRun(states, acts) && i < |acts| && i < j < |states| && acts[i].SubmitAt? && acts[i].n in states[j].members
    ensures acts[i].n in states[i].nodes && acts[i].n in states[j].nodes && Proposed(states, acts, i).index >= 1
    ensures var e := Proposed(states, acts, i); var s := states[j].nodes[acts[i].n];
            && WfLog(s.log)
            && (Pending(s, e.index, e.term) <==> EntryPending(s, e))
            && (Reached(s, e.index, e.term) <==> EntryApplied(s, e))
            && (Overtaken(s, e.index, e.term) <==> EntryLost(s, e))
  {
    hide Inv, IsRun, Extends, CommittedPrefix, LogOK;
    var hs := Histories(states, acts);
    ProposedIsLogged(states, acts, i);
    var n, e := acts[i].n, Proposed(states, acts, i);
    NodePart(states[j], hs[j], n);
    var s := states[j].nodes[n];
    if e.index <= |s.log| && s.log[e.index - 1].term == e.term {
      LogMatching(states, acts, i + 1, j, n, n, e.index - 1);
      assert s.log[e.index - 1] == s.log[..e.index][e.index - 1] == e;
    }
  }

  /** What the node is at each of the moments. */
  function Looks(states: seq<Cluster>, n: Id, at: seq<nat>): (r: seq<NodeState>)
    requires forall m :: 0 <= m < |at| ==> at[m] < |states| && n in states[at[m]].nodes
    ensures |r| == |at| && forall m :: 0 <= m < |at| ==> r[m] == states[at[m]].nodes[n]
  {
    seq(|at|, m requires 0 <= m < |at| => states[at[m]].nodes[n])
  }

  predicate Settles(looks: seq<NodeState>, m: nat, e: LogEntry)
    requires e.index >= 1
  {
    m < |looks| && !EntryPending(looks[m], e) && forall l :: 0 <= l < m ==> EntryPending(looks[l], e)
  }

  lemma SettlesIff(looks: seq<NodeState>, m: nat, e: LogEntry)
    requires e.index >= 1
    requires forall l :: 0 <= l < |looks| ==> (Pending(looks[l], e.index, e.term) <==> EntryPending(looks[l], e))
    ensures Settles(looks, m, e) <==> FirstDecided(looks, m, e.index, e.term)
  {
    hide Pending, EntryPending;
  }

  /**
    Whenever a caller that proposed looks: it is left waiting exactly if its entry is pending at every look;
    otherwise the first look at which it is not decides, Ok exactly if the entry is applied there, and lost
    exactly if it was overtaken.
   */
  lemma AwaitTells(states: seq<Cluster>, acts: seq<Action>, i: nat, at: seq<nat>)
    requires IsRun(states, acts) && i < |acts| && i < |states| && acts[i].SubmitAt?
    requires forall m :: 0 <= m < |at| ==> i < at[m] < |states| && acts[i].n in states[at[m]].nodes
    ensures acts[i].n in states[i].nodes && Proposed(states, acts, i).index >= 1
    ensures var e, looks := Proposed(states, acts, i), Looks(states, acts[i].n, at);
            var w := Await(looks, e.index, e.term);
            && (w == Undecided <==> forall m :: 0 <= m < |looks| ==> EntryPending(looks[m], e))
            && (w == Applied <==> exists m: nat :: Settles(looks, m, e) && EntryApplied(looks[m], e))
            && (w == Lost <==> exists m: nat :: Settles(looks, m, e) && EntryLost(looks[m], e))
  {
    hide IsRun, Await, WfLog, Pending, Reached, Overtaken, EntryPending, EntryApplied, EntryLost, FirstDecided, Settles;
    AllWf(states, acts);
    StepAt(states, acts, i);
    var e, looks := Proposed(states, acts, i), Looks(states, acts[i].n, at);
    forall m | 0 <= m < |looks|
      ensures WfLog(looks[m].log) && (Pending(looks[m], e.index, e.term) <==> EntryPending(looks[m], e))
      ensures Reached(looks[m], e.index, e.term) <==> EntryApplied(looks[m], e)
      ensures Overtaken(looks[m], e.index, e.term) <==> EntryLost(looks[m], e)
    {
      LookTells(states, acts, i, at[m]);
    }
    forall m: nat
      ensures Settles(looks, m, e) <==> FirstDecided(looks, m, e.index, e.term)
      ensures Settles(looks, m, e) ==> m < |looks|
    {
      SettlesIff(looks, m, e);
      SettlesWithin(looks, m, e);
    }
    AwaitDecides(looks, e.index, e.term);
  }

  lemma SettlesWithin(looks: seq<NodeState>, m: nat, e: LogEntry)
    requires e.index >= 1
    ensures Settles(looks, m, e) ==> m < |looks|
  {
  }

  /** If it is told Ok, every node that ever applies the index applies this entry there. */
  lemma AwaitedProposal(states: seq<Cluster>, acts: seq<Action>, i: nat, at: seq<nat>, k: nat, b: Id)
    requires IsRun(states, acts) && i < |acts| && i < |states| && acts[i].SubmitAt? && k < |states| && b in states[k].members
    requires forall m :: 0 <= m < |at| ==> i < at[m] < |states| && acts[i].n in states[at[m]].nodes
    requires acts[i].n in states[i].nodes
    requires Await(Looks(states, acts[i].n, at), Proposed(states, acts, i).index, Proposed(states, acts, i).term) == Applied
    ensures var e := Proposed(states, acts, i);
            b in states[k].nodes && (|states[k].nodes[b].applied| >= e.index >= 1 ==> states[k].nodes[b].applied[e.index - 1] == e)
  {
    hide IsRun, Await, WfLog, Settles, EntryPending, EntryLost, Guard, Safe, Apply;
    AllWf(states, acts);
    var e, looks := Proposed(states, acts, i), Looks(states, acts[i].n, at);
    AwaitTells(states, acts, i, at);
    forall m: nat
      ensures Settles(looks, m, e) ==> m < |looks|
    {
      SettlesWithin(looks, m, e);
    }
    var m: nat :| Settles(looks, m, e) && EntryApplied(looks[m], e);
    StateMachineSafety(states, acts, at[m], k, acts[i].n, b);
  }
}
