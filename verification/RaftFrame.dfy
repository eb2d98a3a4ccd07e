/** How the invariants carry over when one node takes a step and the history grows. */
module RaftFrame {
  import opened ByteStrings
  import opened RaftTypes
  import opened RaftHandlers
  import opened RaftCluster
  import opened RaftInvariants

  // ----- growth of the history -----

  /** A leader's log only grows, and only by entries of its own term. */
  ghost predicate Grows(l: Leadership, l': Leadership, t: nat) {
    && l'.id == l.id && l'.voters == l.voters && l.log <= l'.log
    && forall k :: |l.log| <= k < |l'.log| ==> l'.log[k].term == t
  }

  ghost predicate LeadersGrow(h: History, h': History) {
    forall t :: t in h.leaders ==> t in h'.leaders && Grows(h.leaders[t], h'.leaders[t], t)
  }

  ghost predicate Extends(h: History, h': History) {
    && (forall v, t :: (v, t) in h.votes ==> (v, t) in h'.votes && h'.votes[(v, t)] == h.votes[(v, t)])
    && (forall v, t :: (v, t) in h.candidates ==> (v, t) in h'.candidates && h'.candidates[(v, t)] == h.candidates[(v, t)])
    && LeadersGrow(h, h')
    && (forall v, t: nat :: Ack(h, v, t) <= Ack(h', v, t))
  }

  /** Only node n's part of the history changed. */
  ghost predicate OnlyBy(h: History, h': History, n: Id) {
    && (forall v, t :: (v, t) in h'.votes && v != n ==> (v, t) in h.votes)
    && (forall v, t :: (v, t) in h'.acks && v != n ==> (v, t) in h.acks && h'.acks[(v, t)] == h.acks[(v, t)])
    && (forall t :: t in h'.leaders && h'.leaders[t].id != n ==> t in h.leaders && h.leaders[t] == h'.leaders[t])
  }

  lemma ExtendsRefl(h: History)
    ensures Extends(h, h) && forall n :: OnlyBy(h, h, n)
  {
  }

  lemma ExtendsTrans(h: History, h1: History, h2: History)
    requires Extends(h, h1) && Extends(h1, h2)
    ensures Extends(h, h2)
  {
    forall t | t in h.leaders
      ensures t in h2.leaders && Grows(h.leaders[t], h2.leaders[t], t)
    {
      assert Grows(h.leaders[t], h1.leaders[t], t);
      assert Grows(h1.leaders[t], h2.leaders[t], t);
    }
  }

  // ----- facts that growth keeps -----

  lemma LogGrows(h: History, h': History, log: seq<LogEntry>)
    requires LogOK(h, log) && LeadersGrow(h, h')
    ensures LogOK(h', log)
  {
    forall k | 0 <= k < |log|
      ensures EntryOK(h', log, k)
    {
      assert EntryOK(h, log, k);
      assert Grows(h.leaders[log[k].term], h'.leaders[log[k].term], log[k].term);
    }
  }

  lemma CommittedGrows(h: History, h': History, members: set<Id>, t: nat, k: nat)
    requires Committed(h, members, t, k) && Extends(h, h')
    ensures Committed(h', members, t, k)
    ensures h'.leaders[t].log[..k] == h.leaders[t].log[..k]
  {
    assert Grows(h.leaders[t], h'.leaders[t], t);
    SubsetSize(Acked(h, members, t, k), Acked(h', members, t, k));
  }

  lemma PrefixGrows(h: History, h': History, members: set<Id>, p: seq<LogEntry>, bound: nat, bound': nat)
    requires CommittedPrefix(h, members, p, bound) && Extends(h, h') && bound <= bound'
    ensures CommittedPrefix(h', members, p, bound')
  {
    if p != [] {
      var t: nat, k: nat :| CommittedPrefixAt(h, members, p, bound, t, k);
      CommittedGrows(h, h', members, t, k);
      assert CommittedPrefixAt(h', members, p, bound', t, k);
    }
  }

  lemma CommitGrows(h: History, h': History, members: set<Id>, s: NodeState)
    requires CommitOK(h, members, s) && Extends(h, h')
    ensures CommitOK(h', members, s)
  {
    PrefixGrows(h, h', members, s.log[..s.commitIndex], s.term, s.term);
  }

  lemma SubsetSize<T>(a: set<T>, b: set<T>)
    requires a <= b
    ensures |a| <= |b|
  {
    assert b == a + (b - a);
  }

  lemma AckGrows(h: History, h': History, n: Id, s: NodeState)
    requires AckOK(h, n, s) && LeadersGrow(h, h')
    requires forall t :: (n, t) in h'.acks ==> (n, t) in h.acks && h'.acks[(n, t)] == h.acks[(n, t)]
    ensures AckOK(h', n, s)
  {
    forall t | (n, t) in h'.acks
      ensures t <= s.term && t in h'.leaders && h'.acks[(n, t)] <= |h'.leaders[t].log|
      ensures t == s.term ==> h'.leaders[t].log[..h'.acks[(n, t)]] <= s.log
    {
      assert Grows(h.leaders[t], h'.leaders[t], t);
    }
  }

  lemma NodeGrows(h: History, h': History, members: set<Id>, n: Id, v: Id, s: NodeState)
    requires v != n && NodeOK(h, members, v, s) && Extends(h, h') && OnlyBy(h, h', n)
    ensures NodeOK(h', members, v, s)
  {
    LogGrows(h, h', s.log);
    CommitGrows(h, h', members, s);
    AckGrows(h, h', v, s);
    if s.role == Leader {
      assert h'.leaders[s.term].id == v;
    }
  }

  lemma AppendReqGrows(h: History, h': History, members: set<Id>, req: AppendReq)
    requires AppendReqOK(h, members, req) && LeadersGrow(h, h')
    ensures AppendReqOK(h', members, req)
  {
    assert Grows(h.leaders[req.term], h'.leaders[req.term], req.term);
  }

  lemma SentCommitGrows(h: History, h': History, members: set<Id>, req: AppendReq)
    requires SentCommitOK(h, members, req) && Extends(h, h')
    ensures SentCommitOK(h', members, req)
  {
    var l, l' := h.leaders[req.term], h'.leaders[req.term];
    assert Grows(l, l', req.term);
    PrefixGrows(h, h', members, l.log[..req.leaderCommit], req.term, req.term);
    assert l'.log[..req.leaderCommit] == l.log[..req.leaderCommit];
  }

  lemma PacketGrows(h: History, h': History, members: set<Id>, p: Packet)
    requires PacketOK(h, members, p) && Extends(h, h')
    ensures PacketOK(h', members, p)
  {
    match p
    case VoteRequest(_, _) =>
    case VoteReply(_, _, _) =>
    case AppendRequest(_, req) =>
      AppendReqGrows(h, h', members, req);
      SentCommitGrows(h, h', members, req);
    case AppendReply(from, req, resp) =>
      AppendReqGrows(h, h', members, req);
      assert Ack(h, from, req.term) <= Ack(h', from, req.term);
  }

  /** New votes and acknowledgements leave the records of candidates and leaders alone. */
  lemma HistoryStays(h: History, h': History, members: set<Id>)
    requires LeadersOK(h, members) && CandidatesOK(h) && Extends(h, h')
    requires h'.leaders == h.leaders && h'.candidates == h.candidates
    ensures LeadersOK(h', members) && CandidatesOK(h')
  {
    forall t | t in h'.leaders
      ensures LeaderOK(h', members, t)
    {
      assert LeaderOK(h, members, t);
      LogGrows(h, h', h.leaders[t].log);
    }
    forall n, t | (n, t) in h'.candidates
      ensures t > 0 && LogOK(h', h'.candidates[(n, t)]) && TermsUpTo(h'.candidates[(n, t)], t - 1)
    {
      LogGrows(h, h', h.candidates[(n, t)]);
    }
  }

  // ----- what stays choosable -----

  /** Terms rise, and only a node that may still acknowledge in a term does so. */
  ghost predicate Orderly(c: Cluster, h: History, c': Cluster, h': History)
    requires WfCluster(c) && WfCluster(c')
  {
    && c'.members == c.members
    && (forall v :: v in c.members ==> c.nodes[v].term <= c'.nodes[v].term)
    && (forall v, t: nat :: v in c.members && Ack(h', v, t) > Ack(h, v, t) ==> c.nodes[v].term <= t)
  }

  lemma StepIsOrderly(c: Cluster, h: History, n: Id, s: NodeState, sent: set<Packet>, h': History)
    requires WfCluster(c) && n in c.members && WfLog(s.log) && s.term >= c.nodes[n].term
    requires forall v, t: nat :: v in c.members && Ack(h', v, t) > Ack(h, v, t) ==> c.nodes[v].term <= t
    ensures WfCluster(Update(c, n, s, sent)) && Orderly(c, h, Update(c, n, s, sent), h')
  {
  }

  /** What was not choosable never becomes so. */
  lemma ChoosableShrinks(c: Cluster, h: History, c': Cluster, h': History, t: nat, k: nat)
    requires WfCluster(c) && WfCluster(c') && Orderly(c, h, c', h')
    requires Choosable(c', h', t, k)
    ensures Choosable(c, h, t, k)
  {
    forall n | n in MayAck(c', h', t, k)
      ensures n in MayAck(c, h, t, k)
    {
      assert c.nodes[n].term <= c'.nodes[n].term;
    }
    SubsetSize(MayAck(c', h', t, k), MayAck(c, h, t, k));
  }

  lemma CommittedIsChoosable(c: Cluster, h: History, t: nat, k: nat)
    requires WfCluster(c) && Committed(h, c.members, t, k)
    ensures Choosable(c, h, t, k)
  {
    SubsetSize(Acked(h, c.members, t, k), MayAck(c, h, t, k));
  }

  lemma MajoritiesMeet(members: set<Id>, q: set<Id>, r: set<Id>) returns (v: Id)
    requires IsMajority(members, q) && IsMajority(members, r)
    ensures v in q && v in r
  {
    if q * r == {} {
      SubsetSize(q + r, members);
      assert false;
    }
    v :| v in q * r;
  }

  // ----- a whole step -----

  /** The parts of the invariant that a step of node n uses. */
  lemma Parts(c: Cluster, h: History, n: Id)
    requires Inv(c, h) && n in c.members
    ensures WfCluster(c) && WfLog(c.nodes[n].log)
    ensures KeysOK(h, c.members) && LeadersOK(h, c.members) && CandidatesOK(h)
    ensures AcksKept(c, h) && VotesKept(c, h) && LeadersComplete(c, h)
    ensures NodeOK(h, c.members, n, c.nodes[n])
    ensures LogOK(h, c.nodes[n].log) && TermsUpTo(c.nodes[n].log, c.nodes[n].term)
    ensures VoteOK(h, n, c.nodes[n]) && RoleOK(h, c.members, n, c.nodes[n]) && PeersOK(h, c.members, n, c.nodes[n])
    ensures AckOK(h, n, c.nodes[n]) && CommitOK(h, c.members, c.nodes[n])
  {
  }

  lemma PacketPart(c: Cluster, h: History, p: Packet)
    requires Inv(c, h) && p in c.net
    ensures PacketOK(h, c.members, p)
  {
  }

  lemma Assemble(c: Cluster, h: History, n: Id, s: NodeState, sent: set<Packet>, c': Cluster, h': History)
    requires Inv(c, h) && n in c.members && c' == Update(c, n, s, sent) && WfCluster(c')
    requires Extends(h, h') && OnlyBy(h, h', n)
    requires NodeOK(h', c.members, n, s)
    requires forall p :: p in sent ==> PacketOK(h', c.members, p)
    requires KeysOK(h', c.members) && LeadersOK(h', c.members) && CandidatesOK(h')
    requires AcksKept(c', h') && VotesKept(c', h') && LeadersComplete(c', h')
    ensures Inv(c', h')
  {
    forall v | v in c'.members
      ensures NodeOK(h', c'.members, v, c'.nodes[v])
    {
      if v != n {
        NodeGrows(h, h', c.members, n, v, c.nodes[v]);
      }
    }
    forall p | p in c'.net
      ensures PacketOK(h', c'.members, p)
    {
      if p in c.net {
        PacketGrows(h, h', c.members, p);
      }
    }
  }

  /** A step that changes no log and no history keeps what elections and commits owe each other. */
  lemma QuietKept(c: Cluster, h: History, c': Cluster)
    requires WfCluster(c) && WfCluster(c') && KeysOK(h, c.members) && Orderly(c, h, c', h)
    requires forall v :: v in c.members ==> c'.nodes[v].log == c.nodes[v].log
    requires AcksKept(c, h) && VotesKept(c, h) && LeadersComplete(c, h)
    ensures AcksKept(c', h) && VotesKept(c', h) && LeadersComplete(c', h)
  {
    forall t: nat, k: nat | Choosable(c', h, t, k)
      ensures Choosable(c, h, t, k)
    {
      ChoosableShrinks(c, h, c', h, t, k);
    }
  }

  /** A step that leaves the history alone. */
  lemma Quiet(c: Cluster, h: History, n: Id, s: NodeState, sent: set<Packet>, c': Cluster)
    requires Inv(c, h) && n in c.members && c' == Update(c, n, s, sent)
    requires s.log == c.nodes[n].log && s.term >= c.nodes[n].term
    requires NodeOK(h, c.members, n, s)
    requires forall p :: p in sent ==> PacketOK(h, c.members, p)
    ensures Inv(c', h)
  {
    hide Inv, LeadersOK, CandidatesOK, KeysOK, AcksKept, VotesKept, LeadersComplete, Orderly;
    hide NodeOK, LogOK, TermsUpTo, VoteOK, RoleOK, PeersOK, AckOK, CommitOK, Extends, OnlyBy, PacketOK;
    Parts(c, h, n);
    ExtendsRefl(h);
    StepIsOrderly(c, h, n, s, sent, h);
    QuietKept(c, h, c');
    Assemble(c, h, n, s, sent, c', h);
  }
}
