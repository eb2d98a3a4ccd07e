/** Winning an election, and appending a command as leader. */
module RaftLeaderSteps {
  import opened ByteStrings
  import opened RaftTypes
  import opened RaftHandlers
  import opened RaftCluster
  import opened RaftInvariants
  import opened RaftFrame
  import opened RaftLogs
  import opened RaftQuietSteps

  lemma VoterTerm(c: Cluster, h: History, v: Id, u: nat)
    requires Inv(c, h) && (v, u) in h.votes
    ensures v in c.members && c.nodes[v].term >= u
  {
    assert NodeOK(h, c.members, v, c.nodes[v]);
  }

  lemma AckBound(c: Cluster, h: History, v: Id, t: nat)
    requires Inv(c, h) && t in h.leaders
    ensures Ack(h, v, t) <= |h.leaders[t].log|
  {
    if (v, t) in h.acks {
      assert NodeOK(h, c.members, v, c.nodes[v]);
    }
  }

  /** A majority that voted in term u holds every acknowledgement that an older choosable entry still needs. */
  lemma VoterAcked(c: Cluster, h: History, voters: set<Id>, u: nat, t: nat, k: nat) returns (v: Id)
    requires Inv(c, h) && WfCluster(c) && t < u && Choosable(c, h, t, k)
    requires IsMajority(c.members, voters) && forall w :: w in voters ==> (w, u) in h.votes
    ensures v in voters && Ack(h, v, t) >= k
  {
    hide Inv;
    v := MajoritiesMeet(c.members, voters, MayAck(c, h, t, k));
    VoterTerm(c, h, v, u);
  }

  // ----- winning -----

  function Win(h: History, n: Id, s: NodeState): History
    requires !s.round.NoRound?
  {
    h.(leaders := h.leaders[s.term := Leadership(n, {n} + s.round.granted, s.log)],
       acks := h.acks[(n, s.term) := |s.log|])
  }

  lemma WinnersAreMajority(members: set<Id>, n: Id, s: NodeState)
    requires n in members && CanLead(s, |members - {n}|)
    requires n !in s.round.granted && s.round.granted <= members
    ensures IsMajority(members, {n} + s.round.granted)
  {
    assert members == members - {n} + {n};
  }

  /** Nobody has won this term before. */
  lemma TermIsFree(h: History, members: set<Id>, n: Id, s: NodeState)
    requires n in members && CanLead(s, |members - {n}|) && NOBODY != n
    requires VoteOK(h, n, s) && RoleOK(h, members, n, s) && LeadersOK(h, members)
    ensures s.term !in h.leaders
    ensures IsMajority(members, {n} + s.round.granted)
    ensures forall v :: v in {n} + s.round.granted ==> (v, s.term) in h.votes && h.votes[(v, s.term)] == n
  {
    WinnersAreMajority(members, n, s);
    if s.term in h.leaders {
      assert LeaderOK(h, members, s.term);
      var v := MajoritiesMeet(members, h.leaders[s.term].voters, {n} + s.round.granted);
    }
  }

  lemma WinExtends(h: History, members: set<Id>, n: Id, s: NodeState, h': History)
    requires KeysOK(h, members) && n in members && s.term !in h.leaders && AckOK(h, n, s)
    requires !s.round.NoRound? && h' == Win(h, n, s)
    ensures Extends(h, h') && OnlyBy(h, h', n) && KeysOK(h', members)
  {
    ExtendsRefl(h);
  }

  lemma WinHistoryOK(h: History, members: set<Id>, n: Id, s: NodeState, h': History)
    requires LeadersOK(h, members) && CandidatesOK(h) && LogOK(h, s.log) && TermsUpTo(s.log, s.term)
    requires !s.round.NoRound? && h' == Win(h, n, s) && Extends(h, h') && s.term !in h.leaders && n in members
    requires IsMajority(members, {n} + s.round.granted)
    requires forall v :: v in {n} + s.round.granted ==> (v, s.term) in h.votes && h.votes[(v, s.term)] == n
    ensures LeadersOK(h', members) && CandidatesOK(h')
  {
    forall t | t in h'.leaders
      ensures LeaderOK(h', members, t)
    {
      if t != s.term {
        assert LeaderOK(h, members, t);
      }
      LogGrows(h, h', h'.leaders[t].log);
    }
    forall v, t | (v, t) in h'.candidates
      ensures t > 0 && LogOK(h', h'.candidates[(v, t)]) && TermsUpTo(h'.candidates[(v, t)], t - 1)
    {
      LogGrows(h, h', h.candidates[(v, t)]);
    }
  }

  lemma WinNodeOK(h: History, members: set<Id>, n: Id, s: NodeState, h': History)
    requires NodeOK(h, members, n, s) && WfLog(s.log) && s.term !in h.leaders
    requires !s.round.NoRound? && h' == Win(h, n, s) && Extends(h, h')
    ensures NodeOK(h', members, n, BecomeLeader(s, members - {n}))
  {
    hide LogOK, CommittedPrefix, Extends, PeersOK, WfLog, TermsUpTo, AckOK, RoleOK;
    ExtendsLeaders(h, h');
    LogGrows(h, h', s.log);
    CommitGrows(h, h', members, s);
    WinPeersOK(h', members, n, s);
    WinAckOK(h, n, s, members);
    WinRoleOK(h, members, n, s);
  }

  lemma WinAckOK(h: History, n: Id, s: NodeState, members: set<Id>)
    requires AckOK(h, n, s) && s.term !in h.leaders && !s.round.NoRound?
    ensures AckOK(Win(h, n, s), n, BecomeLeader(s, members - {n}))
  {
    assert s.log[..|s.log|] == s.log;
  }

  lemma WinRoleOK(h: History, members: set<Id>, n: Id, s: NodeState)
    requires RoleOK(h, members, n, s) && s.term !in h.leaders && !s.round.NoRound?
    ensures RoleOK(Win(h, n, s), members, n, BecomeLeader(s, members - {n}))
  {
  }

  lemma WinPeersOK(h: History, members: set<Id>, n: Id, s: NodeState)
    requires WfLog(s.log)
    ensures PeersOK(h, members, n, BecomeLeader(s, members - {n}))
  {
  }

  lemma ExtendsLeaders(h: History, h': History)
    requires Extends(h, h')
    ensures LeadersGrow(h, h')
  {
  }

  /** The new leader's log holds whatever an older term may still commit. */
  lemma WinnerComplete(c: Cluster, h: History, n: Id, t: nat, k: nat)
    requires Inv(c, h) && n in c.members && CanLead(c.nodes[n], |c.members - {n}|)
    requires OwnEntry(h, t, k) && t < c.nodes[n].term && Choosable(c, h, t, k)
    ensures Keeps(h, t, k, c.nodes[n].log)
  {
    hide Inv, LeadersOK, CandidatesOK, AcksKept, LeadersComplete, NodeOK, AckOK, CommitOK;
    Parts(c, h, n);
    var s := c.nodes[n];
    TermIsFree(h, c.members, n, s);
    var v := VoterAcked(c, h, {n} + s.round.granted, s.term, t, k);
    assert (v, s.term) in h.votes;
  }

  /** The winner's log has no entry of the new term yet. */
  lemma WinOwnEntry(h: History, n: Id, s: NodeState, t: nat, k: nat)
    requires !s.round.NoRound? && s.term > 0 && TermsUpTo(s.log, s.term - 1) && OwnEntry(Win(h, n, s), t, k)
    ensures t != s.term && OwnEntry(h, t, k) && Win(h, n, s).leaders[t] == h.leaders[t]
    ensures forall v :: Ack(Win(h, n, s), v, t) == Ack(h, v, t)
  {
  }

  lemma WinKept(c: Cluster, h: History, n: Id, c': Cluster, h': History)
    requires WfCluster(c) && WfCluster(c') && n in c.members && KeysOK(h, c.members) && KeysOK(h', c.members)
    requires AcksKept(c, h) && VotesKept(c, h) && LeadersComplete(c, h) && Orderly(c, h, c', h')
    requires !c.nodes[n].round.NoRound? && h' == Win(h, n, c.nodes[n]) && c.nodes[n].term !in h.leaders && c.nodes[n].term > 0
    requires TermsUpTo(c.nodes[n].log, c.nodes[n].term - 1)
    requires forall v :: v in c.members ==> c'.nodes[v].log == c.nodes[v].log
    requires forall t: nat, k: nat :: OwnEntry(h, t, k) && t < c.nodes[n].term && Choosable(c, h, t, k) ==> Keeps(h, t, k, c.nodes[n].log)
    ensures AcksKept(c', h') && VotesKept(c', h') && LeadersComplete(c', h')
  {
    hide Choosable, TermsUpTo, Orderly;
    forall v, t: nat, k: nat | v in c'.members && OwnEntry(h', t, k) && k <= Ack(h', v, t) && Choosable(c', h', t, k)
      ensures Keeps(h', t, k, c'.nodes[v].log)
    {
      WinOwnEntry(h, n, c.nodes[n], t, k);
      ChoosableShrinks(c, h, c', h', t, k);
    }
    forall v, u: nat, t: nat, k: nat | (v, u) in h'.votes && OwnEntry(h', t, k) && t < u && k <= Ack(h', v, t) && Choosable(c', h', t, k)
      ensures Keeps(h', t, k, h'.candidates[(h'.votes[(v, u)], u)])
    {
      WinOwnEntry(h, n, c.nodes[n], t, k);
      ChoosableShrinks(c, h, c', h', t, k);
    }
    forall t: nat, u: nat, k: nat | OwnEntry(h', t, k) && u in h'.leaders && t < u && Choosable(c', h', t, k)
      ensures Keeps(h', t, k, h'.leaders[u].log)
    {
      WinOwnEntry(h, n, c.nodes[n], t, k);
      ChoosableShrinks(c, h, c', h', t, k);
    }
  }

  lemma CandidateTerms(h: History, members: set<Id>, n: Id, s: NodeState)
    requires CandidatesOK(h) && RoleOK(h, members, n, s) && s.role == Candidate
    ensures s.term > 0 && TermsUpTo(s.log, s.term - 1)
  {
  }

  lemma WinInv(c: Cluster, h: History, n: Id) returns (h': History)
    requires Inv(c, h) && n in c.members && CanLead(c.nodes[n], |c.members - {n}|)
    ensures Inv(Update(c, n, BecomeLeader(c.nodes[n], Peers(c, n)), {}), h') && Extends(h, h')
  {
    hide Inv, LeadersOK, CandidatesOK, KeysOK, AcksKept, VotesKept, LeadersComplete, TermsUpTo;
    hide NodeOK, LogOK, VoteOK, RoleOK, PeersOK, AckOK, CommitOK, Extends, OnlyBy, BecomeLeader, IsMajority;
    hide OwnEntry, Choosable, Keeps, WfLog;
    Parts(c, h, n);
    var s := c.nodes[n];
    var s' := BecomeLeader(s, Peers(c, n));
    var c' := Update(c, n, s', {});
    h' := Win(h, n, s);
    TermIsFree(h, c.members, n, s);
    WinExtends(h, c.members, n, s, h');
    WinHistoryOK(h, c.members, n, s, h');
    WinNodeOK(h, c.members, n, s, h');
    CandidateTerms(h, c.members, n, s);
    WinFrame(s, Peers(c, n));
    StepIsOrderly(c, h, n, s', {}, h');
    forall t: nat, k: nat | OwnEntry(h, t, k) && t < s.term && Choosable(c, h, t, k)
      ensures Keeps(h, t, k, s.log)
    {
      WinnerComplete(c, h, n, t, k);
    }
    WinKept(c, h, n, c', h');
    Assemble(c, h, n, s', {}, c', h');
  }

  lemma LeadStep(c: Cluster, h: History, n: Id) returns (h': History)
    requires Inv(c, h) && Enabled(c, LeadAt(n))
    ensures Inv(Apply(c, LeadAt(n)), h') && Extends(h, h')
  {
    hide Inv, Extends, CanLead, BecomeLeader;
    h' := WinInv(c, h, n);
  }

  lemma WinFrame(s: NodeState, peers: set<Id>)
    ensures BecomeLeader(s, peers).log == s.log && BecomeLeader(s, peers).term == s.term
  {
  }

  // ----- appending -----

  function Write(h: History, n: Id, t: nat, log: seq<LogEntry>): History
    requires t in h.leaders
  {
    h.(leaders := h.leaders[t := h.leaders[t].(log := log)], acks := h.acks[(n, t) := |log|])
  }

  lemma WriteExtends(h: History, members: set<Id>, n: Id, s: NodeState, s': NodeState, h': History)
    requires KeysOK(h, members) && n in members && s.role == Leader && RoleOK(h, members, n, s)
    requires |s'.log| == |s.log| + 1 && s'.log[..|s.log|] == s.log && s'.log[|s.log|].term == s.term
    requires h' == Write(h, n, s.term, s'.log)
    ensures Extends(h, h') && OnlyBy(h, h', n) && KeysOK(h', members)
  {
    ExtendsRefl(h);
    assert Grows(h.leaders[s.term], h'.leaders[s.term], s.term);
  }

  lemma WriteLogOK(h: History, members: set<Id>, n: Id, s: NodeState, s': NodeState, h': History)
    requires s.role == Leader && RoleOK(h, members, n, s) && LogOK(h, s.log) && WfLog(s'.log)
    requires |s'.log| == |s.log| + 1 && s'.log[..|s.log|] == s.log && s'.log[|s.log|].term == s.term
    requires h' == Write(h, n, s.term, s'.log) && Extends(h, h')
    ensures LogOK(h', s'.log)
  {
    LogGrows(h, h', s.log);
    forall k | 0 <= k < |s'.log|
      ensures EntryOK(h', s'.log, k)
    {
      if k < |s.log| {
        assert EntryOK(h', s.log, k) && s'.log[..k + 1] == s.log[..k + 1];
      } else {
        assert s'.log[..k + 1] == s'.log;
      }
    }
  }

  lemma WriteHistoryOK(h: History, members: set<Id>, n: Id, t0: nat, log: seq<LogEntry>, h': History)
    requires LeadersOK(h, members) && CandidatesOK(h) && t0 in h.leaders
    requires h' == Write(h, n, t0, log) && Extends(h, h') && LogOK(h', log) && TermsUpTo(log, t0)
    ensures LeadersOK(h', members) && CandidatesOK(h')
  {
    forall t | t in h'.leaders
      ensures LeaderOK(h', members, t)
    {
      assert LeaderOK(h, members, t);
      if t != t0 {
        LogGrows(h, h', h.leaders[t].log);
      }
    }
    forall v, t | (v, t) in h'.candidates
      ensures t > 0 && LogOK(h', h'.candidates[(v, t)]) && TermsUpTo(h'.candidates[(v, t)], t - 1)
    {
      LogGrows(h, h', h.candidates[(v, t)]);
    }
  }

  lemma WriteNodeOK(h: History, members: set<Id>, n: Id, s: NodeState, command: Str, h': History)
    requires NodeOK(h, members, n, s) && s.role == Leader && WfLog(s.log)
    requires h' == Write(h, n, s.term, Appended(s, command).log) && Extends(h, h') && LogOK(h', Appended(s, command).log)
    ensures NodeOK(h', members, n, Appended(s, command))
  {
    var s' := Appended(s, command);
    CommitGrows(h, h', members, s);
    assert s'.log[..s.commitIndex] == s.log[..s.commitIndex];
  }

  /** No newer leader exists that could miss the new entry of a term that may still commit it. */
  lemma WriteNewEntry(c: Cluster, h: History, n: Id, c': Cluster, h': History, u: nat, k: nat)
    requires Inv(c, h) && n in c.members && c.nodes[n].role == Leader && WfCluster(c') && c'.members == c.members
    requires c.nodes[n].term in h.leaders && h'.acks == h.acks[(n, c.nodes[n].term) := k]
    requires Orderly(c, h, c', h')
    requires u in h.leaders && c.nodes[n].term < u && k > |h.leaders[c.nodes[n].term].log|
    ensures !Choosable(c', h', c.nodes[n].term, k)
  {
    var t := c.nodes[n].term;
    if Choosable(c', h', t, k) {
      assert LeaderOK(h, c.members, u);
      hide Inv;
      ChoosableShrinks(c, h, c', h', t, k);
      var v := VoterAcked(c, h, h.leaders[u].voters, u, t, k);
      AckBound(c, h, v, t);
    }
  }

  lemma WriteOwnEntry(h: History, n: Id, t0: nat, log: seq<LogEntry>, h': History, t: nat, k: nat)
    requires t0 in h.leaders && h' == Write(h, n, t0, log) && h.leaders[t0].log <= log && |log| == |h.leaders[t0].log| + 1
    requires OwnEntry(h', t, k) && !(t == t0 && k == |log|)
    ensures OwnEntry(h, t, k) && h'.leaders[t].log[..k] == h.leaders[t].log[..k]
  {
  }

  lemma WriteAcksKept(c: Cluster, h: History, n: Id, log: seq<LogEntry>, c': Cluster, h': History)
    requires WfCluster(c) && WfCluster(c') && c'.members == c.members && n in c.members && AcksKept(c, h) && Orderly(c, h, c', h')
    requires c.nodes[n].term in h.leaders && h' == Write(h, n, c.nodes[n].term, log)
    requires h.leaders[c.nodes[n].term].log == c.nodes[n].log && c.nodes[n].log <= log && |log| == |c.nodes[n].log| + 1
    requires Ack(h, n, c.nodes[n].term) == |c.nodes[n].log|
    requires forall v :: Ack(h, v, c.nodes[n].term) <= |c.nodes[n].log|
    requires forall v :: v in c.members ==> c'.nodes[v].log == if v == n then log else c.nodes[v].log
    ensures AcksKept(c', h')
  {
    hide Choosable, Orderly;
    forall v, t: nat, k: nat | v in c'.members && OwnEntry(h', t, k) && k <= Ack(h', v, t) && Choosable(c', h', t, k)
      ensures Keeps(h', t, k, c'.nodes[v].log)
    {
      assert v != n ==> Ack(h', v, t) == Ack(h, v, t);
      if !(t == c.nodes[n].term && k == |log|) {
        WriteOwnEntry(h, n, c.nodes[n].term, log, h', t, k);
        ChoosableShrinks(c, h, c', h', t, k);
        assert Keeps(h, t, k, c.nodes[v].log);
      }
    }
  }

  lemma WriteElectionsKept(c: Cluster, h: History, n: Id, log: seq<LogEntry>, c': Cluster, h': History)
    requires WfCluster(c) && WfCluster(c') && n in c.members && KeysOK(h, c.members) && KeysOK(h', c.members)
    requires VotesKept(c, h) && LeadersComplete(c, h) && Orderly(c, h, c', h')
    requires c.nodes[n].term in h.leaders && h' == Write(h, n, c.nodes[n].term, log)
    requires h.leaders[c.nodes[n].term].log == c.nodes[n].log && c.nodes[n].log <= log && |log| == |c.nodes[n].log| + 1
    requires Ack(h, n, c.nodes[n].term) == |c.nodes[n].log|
    requires forall v :: Ack(h, v, c.nodes[n].term) <= |c.nodes[n].log|
    requires forall u :: (n, u) in h.votes ==> u <= c.nodes[n].term
    requires forall u :: u in h.leaders && u > c.nodes[n].term ==> !Choosable(c', h', c.nodes[n].term, |log|)
    ensures VotesKept(c', h') && LeadersComplete(c', h')
  {
    hide Choosable, Orderly;
    var t0 := c.nodes[n].term;
    forall v, u: nat, t: nat, k: nat | (v, u) in h'.votes && OwnEntry(h', t, k) && t < u && k <= Ack(h', v, t) && Choosable(c', h', t, k)
      ensures Keeps(h', t, k, h'.candidates[(h'.votes[(v, u)], u)])
    {
      assert (v, t) != (n, t0) ==> Ack(h', v, t) == Ack(h, v, t);
      WriteOwnEntry(h, n, t0, log, h', t, k);
      ChoosableShrinks(c, h, c', h', t, k);
      assert (v, u) in h.votes && k <= Ack(h, v, t);
    }
    forall t: nat, u: nat, k: nat | OwnEntry(h', t, k) && u in h'.leaders && t < u && Choosable(c', h', t, k)
      ensures Keeps(h', t, k, h'.leaders[u].log)
    {
      assert u in h.leaders;
      WriteOwnEntry(h, n, t0, log, h', t, k);
      ChoosableShrinks(c, h, c', h', t, k);
      assert Keeps(h, t, k, h.leaders[u].log);
    }
  }

  lemma AdvanceFrame(s: NodeState, peers: set<Id>)
    requires WfLog(s.log)
    ensures AdvanceCommit(s, peers).log == s.log && AdvanceCommit(s, peers).term == s.term
  {
  }

  lemma LeaderPart(h: History, members: set<Id>, n: Id, s: NodeState)
    requires RoleOK(h, members, n, s) && VoteOK(h, n, s) && s.role == Leader
    ensures s.term in h.leaders && h.leaders[s.term].log == s.log && Ack(h, n, s.term) == |s.log|
    ensures forall u :: (n, u) in h.votes ==> u <= s.term
  {
  }

  lemma AppendedShape(s: NodeState, command: Str)
    requires WfLog(s.log) && TermsUpTo(s.log, s.term)
    ensures var log := Appended(s, command).log;
            |log| == |s.log| + 1 && log[..|s.log|] == s.log && s.log <= log && log[|s.log|].term == s.term &&
            WfLog(log) && TermsUpTo(log, s.term)
    ensures Appended(s, command).term == s.term && Appended(s, command).role == s.role
  {
  }

  /** The new entry endangers nothing that an older election or acknowledgement promised. */
  lemma WriteKept(c: Cluster, h: History, n: Id, log: seq<LogEntry>, c': Cluster, h': History)
    requires Inv(c, h) && WfCluster(c) && WfCluster(c') && c'.members == c.members && n in c.members
    requires c.nodes[n].role == Leader && RoleOK(h, c.members, n, c.nodes[n]) && VoteOK(h, n, c.nodes[n])
    requires KeysOK(h, c.members) && KeysOK(h', c.members)
    requires AcksKept(c, h) && VotesKept(c, h) && LeadersComplete(c, h) && Orderly(c, h, c', h')
    requires c.nodes[n].term in h.leaders && h' == Write(h, n, c.nodes[n].term, log)
    requires c.nodes[n].log <= log && |log| == |c.nodes[n].log| + 1
    requires forall v :: v in c.members ==> c'.nodes[v].log == if v == n then log else c.nodes[v].log
    ensures AcksKept(c', h') && VotesKept(c', h') && LeadersComplete(c', h')
  {
    hide Inv, KeysOK, AcksKept, VotesKept, LeadersComplete, VoteOK, RoleOK, Choosable, Orderly, WfLog;
    var s := c.nodes[n];
    LeaderPart(h, c.members, n, s);
    forall v
      ensures Ack(h, v, s.term) <= |s.log|
    {
      AckBound(c, h, v, s.term);
    }
    forall u | u in h.leaders && u > s.term
      ensures !Choosable(c', h', s.term, |log|)
    {
      WriteNewEntry(c, h, n, c', h', u, |log|);
    }
    WriteAcksKept(c, h, n, log, c', h');
    WriteElectionsKept(c, h, n, log, c', h');
  }

  lemma SubmitStep(c: Cluster, h: History, n: Id, command: Str) returns (h': History)
    requires Inv(c, h) && Enabled(c, SubmitAt(n, command))
    ensures Inv(Apply(c, SubmitAt(n, command)), h') && Extends(h, h')
  {
    hide Inv, LeadersOK, CandidatesOK, KeysOK, AcksKept, VotesKept, LeadersComplete;
    hide NodeOK, LogOK, VoteOK, RoleOK, PeersOK, AckOK, CommitOK, Extends, OnlyBy, AdvanceCommit, Choosable;
    hide Appended, TermsUpTo, HighestCommittable, Orderly;
    Parts(c, h, n);
    var s := c.nodes[n];
    LeaderPart(h, c.members, n, s);
    var a := Appended(s, command);
    AppendedShape(s, command);
    var s' := AdvanceCommit(a, Peers(c, n));
    var c' := Update(c, n, s', {});
    h' := Write(h, n, s.term, a.log);
    WriteExtends(h, c.members, n, s, a, h');
    WriteLogOK(h, c.members, n, s, a, h');
    WriteHistoryOK(h, c.members, n, s.term, a.log, h');
    WriteNodeOK(h, c.members, n, s, command, h');
    AdvanceCommitOK(h', c.members, n, a);
    AdvanceFrame(a, Peers(c, n));
    StepIsOrderly(c, h, n, s', {}, h');
    WriteKept(c, h, n, a.log, c', h');
    Assemble(c, h, n, s', {}, c', h');
  }
}
