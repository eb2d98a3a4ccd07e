/** A follower handles an append request. */
module RaftAppendStep {
  import opened ByteStrings
  import opened RaftTypes
  import opened RaftHandlers
  import opened RaftCluster
  import opened RaftInvariants
  import opened RaftFrame
  import opened RaftLogs
  import opened RaftQuietSteps

  function Acknowledge(h: History, n: Id, t: nat, end: nat): History {
    h.(acks := h.acks[(n, t) := Max(Ack(h, n, t), end)])
  }

  /** The follower's log afterwards, in terms of the sender's log. */
  function Merged(f: seq<LogEntry>, l: seq<LogEntry>, end: nat): seq<LogEntry>
    requires end <= |l|
  {
    if l[..end] <= f then f else l[..end]
  }

  /** The consistency check compares one term; it establishes agreement up to there. */
  lemma CheckedPrefix(h: History, members: set<Id>, f: seq<LogEntry>, req: AppendReq)
    requires LogOK(h, f) && AppendReqOK(h, members, req) && LogOK(h, h.leaders[req.term].log)
    requires Conflict(f, req) == 0
    ensures req.prevIndex <= |f| && f[..req.prevIndex] == h.leaders[req.term].log[..req.prevIndex]
  {
    LogOKIsWf(h, f);
    if req.prevIndex > 0 {
      SameTermSamePrefix(h, f, h.leaders[req.term].log, req.prevIndex - 1);
    }
  }

  lemma SentNumbered(h: History, members: set<Id>, req: AppendReq)
    requires AppendReqOK(h, members, req) && WfLog(h.leaders[req.term].log)
    ensures Numbered(req.entries, req.prevIndex)
  {
  }

  /** A request that passes the consistency check merges the sender's log into the follower's. */
  lemma AcceptedMerges(h: History, members: set<Id>, f: seq<LogEntry>, req: AppendReq)
    requires LogOK(h, f) && AppendReqOK(h, members, req) && LogOK(h, h.leaders[req.term].log)
    requires Conflict(f, req) == 0
    requires WfLog(f) && Numbered(req.entries, req.prevIndex) && req.prevIndex <= |f|
    ensures Splice(f, req.prevIndex, req.entries) == Merged(f, h.leaders[req.term].log, req.prevIndex + |req.entries|)
  {
    hide LogOK, AppendReqOK, Conflict, Matching, WfLog, Numbered, Splice;
    SentSlice(h, members, req);
    var l := h.leaders[req.term].log;
    LogOKIsWf(h, l);
    CheckedPrefix(h, members, f, req);
    LogsMatch(h, f, l);
    SpliceMeaning(f, l, req.prevIndex, req.prevIndex + |req.entries|);
  }

  lemma SentSlice(h: History, members: set<Id>, req: AppendReq)
    requires AppendReqOK(h, members, req)
    ensures req.term in h.leaders && req.prevIndex + |req.entries| <= |h.leaders[req.term].log|
    ensures req.entries == h.leaders[req.term].log[req.prevIndex..req.prevIndex + |req.entries|]
  {
  }

  /** What is committed stays a prefix of every newer leader's log. */
  lemma CommittedInLeader(c: Cluster, h: History, p: seq<LogEntry>, bound: nat, u: nat)
    requires WfCluster(c) && LeadersComplete(c, h)
    requires CommittedPrefix(h, c.members, p, bound) && bound <= u && u in h.leaders
    ensures p <= h.leaders[u].log
  {
    if p != [] {
      var t: nat, k: nat :| CommittedPrefixAt(h, c.members, p, bound, t, k);
      if t < u {
        CommittedIsChoosable(c, h, t, k);
        assert Keeps(h, t, k, h.leaders[u].log);
        assert p <= h.leaders[t].log[..k];
      }
    }
  }

  lemma AcknowledgeExtends(h: History, n: Id, t: nat, end: nat)
    ensures Extends(h, Acknowledge(h, n, t, end)) && OnlyBy(h, Acknowledge(h, n, t, end), n)
    ensures forall v, u: nat :: (v, u) != (n, t) ==> Ack(Acknowledge(h, n, t, end), v, u) == Ack(h, v, u)
  {
  }

  lemma AcknowledgeKeys(h: History, members: set<Id>, n: Id, t: nat, end: nat)
    requires KeysOK(h, members) && n in members
    ensures KeysOK(Acknowledge(h, n, t, end), members)
  {
  }

  lemma MergedLogOK(h: History, members: set<Id>, f: seq<LogEntry>, t: nat, end: nat)
    requires LogOK(h, f) && TermsUpTo(f, t) && LeadersOK(h, members) && t in h.leaders && end <= |h.leaders[t].log|
    ensures LogOK(h, Merged(f, h.leaders[t].log, end)) && TermsUpTo(Merged(f, h.leaders[t].log, end), t)
  {
    assert LeaderOK(h, members, t);
    PrefixOK(h, h.leaders[t].log, end);
  }

  lemma MergedAckOK(h: History, n: Id, s: NodeState, t: nat, end: nat, s': NodeState)
    requires AckOK(h, n, s) && s.term == t && t in h.leaders && end <= |h.leaders[t].log|
    requires s'.term == t && s'.log == Merged(s.log, h.leaders[t].log, end)
    ensures AckOK(Acknowledge(h, n, t, end), n, s')
  {
    var l := h.leaders[t].log;
    assert l[..Ack(h, n, t)] <= s.log;
    SpliceKeeps(s.log, l, end, l[..Ack(h, n, t)]);
  }

  /** The state a follower at the request's term reaches when it accepts the request. */
  ghost predicate Accepts(h: History, s: NodeState, req: AppendReq, v: NodeState)
    requires req.term in h.leaders && req.prevIndex + |req.entries| <= |h.leaders[req.term].log|
  {
    && s.term == v.term == req.term && s.role == v.role == Follower && v.votedFor == s.votedFor
    && v.log == Merged(s.log, h.leaders[req.term].log, req.prevIndex + |req.entries|)
  }

  lemma AcceptMerges(h: History, members: set<Id>, s: NodeState, req: AppendReq)
    requires LogOK(h, s.log) && LeadersOK(h, members) && AppendReqOK(h, members, req)
    requires WfLog(s.log) && Numbered(req.entries, req.prevIndex) && Conflict(s.log, req) == 0
    requires s.term == req.term && s.role == Follower
    ensures Accepts(h, s, req, Accept(s, req))
  {
    assert LeaderOK(h, members, req.term);
    CheckedPrefix(h, members, s.log, req);
    AcceptedMerges(h, members, s.log, req);
    hide Merged, LogOK, LeaderOK, LeadersOK, Splice;
  }

  /** Accepting never drops what was committed, and newly commits only what the sender's log holds. */
  lemma AcceptCommits(c: Cluster, h: History, s: NodeState, req: AppendReq, u: NodeState, v: NodeState)
    requires WfCluster(c) && LeadersComplete(c, h) && CommitOK(h, c.members, s) && s.term == req.term
    requires AppendReqOK(h, c.members, req) && SentCommitOK(h, c.members, req)
    requires u == s.(log := Merged(s.log, h.leaders[req.term].log, req.prevIndex + |req.entries|)) && WfLog(u.log)
    requires v == if req.leaderCommit > u.commitIndex
                  then ApplyCommitted(u.(commitIndex := Min(req.leaderCommit, LastIndex(u.log)))) else u
    ensures CommitOK(h, c.members, v)
    ensures s.commitIndex <= v.commitIndex && s.log[..s.commitIndex] <= v.log
    ensures v.commitIndex > s.commitIndex ==> v.log[..v.commitIndex] <= h.leaders[req.term].log
  {
    var l := h.leaders[req.term].log;
    var p := s.log[..s.commitIndex];
    CommittedInLeader(c, h, p, s.term, req.term);
    SpliceKeeps(s.log, l, req.prevIndex + |req.entries|, p);
    assert u.log[..u.commitIndex] == p;
    if req.leaderCommit > u.commitIndex {
      assert u.log[..req.leaderCommit] == l[..req.leaderCommit];
      CommitUpToOK(h, c.members, u, req.leaderCommit);
    }
  }

  lemma AcceptRoleOK(h: History, members: set<Id>, n: Id, s: NodeState, v: NodeState, h': History)
    requires VoteOK(h, n, s) && RoleOK(h, members, n, s)
    requires s.term == v.term && s.role == v.role == Follower && v.votedFor == s.votedFor
    requires h'.votes == h.votes && h'.leaders == h.leaders
    ensures VoteOK(h', n, v) && RoleOK(h', members, n, v) && PeersOK(h', members, n, v)
  {
  }

  lemma AcceptNodeOK(h: History, members: set<Id>, n: Id, s: NodeState, req: AppendReq, v: NodeState)
    requires LeadersOK(h, members) && NodeOK(h, members, n, s) && AppendReqOK(h, members, req)
    requires Accepts(h, s, req, v) && CommitOK(h, members, v)
    ensures NodeOK(Acknowledge(h, n, req.term, req.prevIndex + |req.entries|), members, n, v)
  {
    hide Merged, LeadersOK, CommitOK, RoleOK, VoteOK, PeersOK, AckOK, LogOK, TermsUpTo, OnlyBy;
    var end := req.prevIndex + |req.entries|;
    var h' := Acknowledge(h, n, req.term, end);
    AcknowledgeExtends(h, n, req.term, end);
    CommitGrows(h, h', members, v);
    AcceptRoleOK(h, members, n, s, v, h');
    MergedAckOK(h, n, s, req.term, end, v);
    MergedLogOK(h, members, s.log, req.term, end);
    LogGrows(h, h', v.log);
  }

  /** Accepting keeps what the node acknowledged in this and in every older term. */
  lemma AcceptAcksKept(c: Cluster, h: History, n: Id, req: AppendReq, v: NodeState, t: nat, k: nat)
    requires WfCluster(c) && n in c.members && AcksKept(c, h) && LeadersComplete(c, h)
    requires AckOK(h, n, c.nodes[n]) && AppendReqOK(h, c.members, req) && Accepts(h, c.nodes[n], req, v)
    requires OwnEntry(h, t, k) && Choosable(c, h, t, k)
    requires k <= Ack(Acknowledge(h, n, req.term, req.prevIndex + |req.entries|), n, t)
    ensures Keeps(h, t, k, v.log)
  {
    var s, l, end := c.nodes[n], h.leaders[req.term].log, req.prevIndex + |req.entries|;
    if t == req.term {
      MergedAckOK(h, n, s, t, end, v);
    } else {
      assert (n, t) in h.acks;
      SpliceKeeps(s.log, l, end, h.leaders[t].log[..k]);
    }
  }

  lemma AcceptKept(c: Cluster, h: History, n: Id, req: AppendReq, v: NodeState, c': Cluster, h': History)
    requires WfCluster(c) && n in c.members && WfCluster(c')
    requires AcksKept(c, h) && LeadersComplete(c, h)
    requires AckOK(h, n, c.nodes[n]) && AppendReqOK(h, c.members, req) && Accepts(h, c.nodes[n], req, v)
    requires h' == Acknowledge(h, n, req.term, req.prevIndex + |req.entries|)
    requires c'.members == c.members && c'.nodes == c.nodes[n := v] && Orderly(c, h, c', h')
    ensures AcksKept(c', h')
  {
    forall w, t: nat, k: nat | w in c'.members && OwnEntry(h', t, k) && k <= Ack(h', w, t) && Choosable(c', h', t, k)
      ensures Keeps(h', t, k, c'.nodes[w].log)
    {
      assert OwnEntry(h, t, k);
      ChoosableShrinks(c, h, c', h', t, k);
      if w == n {
        AcceptAcksKept(c, h, n, req, v, t, k);
      } else {
        assert k <= Ack(h, w, t);
      }
    }
  }

  /** An acknowledgement comes from a node that has not voted in a newer term. */
  lemma AcceptElectionsKept(c: Cluster, h: History, n: Id, end: nat, c': Cluster, h': History)
    requires WfCluster(c) && n in c.members && KeysOK(h, c.members) && WfCluster(c')
    requires VotesKept(c, h) && LeadersComplete(c, h) && VoteOK(h, n, c.nodes[n])
    requires h' == Acknowledge(h, n, c.nodes[n].term, end) && Orderly(c, h, c', h')
    ensures VotesKept(c', h') && LeadersComplete(c', h')
  {
    forall w, u: nat, t: nat, k: nat | (w, u) in h'.votes && OwnEntry(h', t, k) && t < u && k <= Ack(h', w, t) && Choosable(c', h', t, k)
      ensures Keeps(h', t, k, h'.candidates[(h'.votes[(w, u)], u)])
    {
      assert OwnEntry(h, t, k);
      assert (w, u) in h.votes;
      ChoosableShrinks(c, h, c', h', t, k);
    }
    forall t: nat, u: nat, k: nat | OwnEntry(h', t, k) && u in h'.leaders && t < u && Choosable(c', h', t, k)
      ensures Keeps(h', t, k, h'.leaders[u].log)
    {
      assert OwnEntry(h, t, k);
      ChoosableShrinks(c, h, c', h', t, k);
    }
  }

  lemma ReplyOK(h: History, members: set<Id>, n: Id, p: Packet, resp: AppendResp)
    requires p.AppendRequest? && p.to == n && PacketOK(h, members, p)
    requires resp.success ==> p.append.prevIndex + |p.append.entries| <= Ack(h, n, p.append.term)
    requires !resp.success && resp.term <= p.append.term ==> 1 <= resp.conflictIndex <= p.append.prevIndex
    ensures PacketOK(h, members, AppendReply(n, p.append, resp))
  {
  }

  lemma AcceptNode(c: Cluster, h: History, n: Id, req: AppendReq)
    requires WfCluster(c) && n in c.members && LeadersOK(h, c.members) && LeadersComplete(c, h)
    requires NodeOK(h, c.members, n, c.nodes[n]) && LogOK(h, c.nodes[n].log) && CommitOK(h, c.members, c.nodes[n])
    requires AppendReqOK(h, c.members, req) && SentCommitOK(h, c.members, req)
    requires c.nodes[n].term == req.term && c.nodes[n].role == Follower
    requires Numbered(req.entries, req.prevIndex) && Conflict(c.nodes[n].log, req) == 0
    ensures Accepts(h, c.nodes[n], req, Accept(c.nodes[n], req))
    ensures NodeOK(Acknowledge(h, n, req.term, req.prevIndex + |req.entries|), c.members, n, Accept(c.nodes[n], req))
    ensures WfLog(Accept(c.nodes[n], req).log)
  {
    hide NodeOK, LeadersOK, LeadersComplete, Merged, AppendReqOK, SentCommitOK, CommitOK, LogOK;
    var s := c.nodes[n];
    var v := Accept(s, req);
    AcceptMerges(h, c.members, s, req);
    AcceptCommits(c, h, s, req, s.(log := Splice(s.log, req.prevIndex, req.entries)), v);
    AcceptNodeOK(h, c.members, n, s, req, v);
  }

  lemma AcceptLogs(c: Cluster, h: History, n: Id, req: AppendReq, v: NodeState, sent: set<Packet>, c': Cluster, h': History)
    requires WfCluster(c) && n in c.members && KeysOK(h, c.members)
    requires AcksKept(c, h) && VotesKept(c, h) && LeadersComplete(c, h)
    requires VoteOK(h, n, c.nodes[n]) && AckOK(h, n, c.nodes[n]) && AppendReqOK(h, c.members, req)
    requires Accepts(h, c.nodes[n], req, v) && WfLog(v.log)
    requires c' == Update(c, n, v, sent) && h' == Acknowledge(h, n, req.term, req.prevIndex + |req.entries|)
    ensures WfCluster(c') && KeysOK(h', c'.members)
    ensures AcksKept(c', h') && VotesKept(c', h') && LeadersComplete(c', h')
  {
    hide KeysOK, AcksKept, VotesKept, LeadersComplete, VoteOK, AckOK, Merged, Orderly, AppendReqOK;
    AcknowledgeKeys(h, c.members, n, req.term, req.prevIndex + |req.entries|);
    AcknowledgeExtends(h, n, req.term, req.prevIndex + |req.entries|);
    StepIsOrderly(c, h, n, v, sent, h');
    AcceptKept(c, h, n, req, v, c', h');
    AcceptElectionsKept(c, h, n, req.prevIndex + |req.entries|, c', h');
  }

  lemma AcceptHistory(h: History, members: set<Id>, n: Id, p: Packet, h': History)
    requires LeadersOK(h, members) && CandidatesOK(h)
    requires p.AppendRequest? && p.to == n && PacketOK(h, members, p)
    requires h' == Acknowledge(h, n, p.append.term, p.append.prevIndex + |p.append.entries|)
    ensures Extends(h, h') && OnlyBy(h, h', n) && LeadersOK(h', members) && CandidatesOK(h')
    ensures PacketOK(h', members, AppendReply(n, p.append, AppendResp(p.append.term, true, 0)))
  {
    hide LeadersOK, CandidatesOK, Extends, OnlyBy;
    AcknowledgeExtends(h, n, p.append.term, p.append.prevIndex + |p.append.entries|);
    HistoryStays(h, h', members);
    PacketGrows(h, h', members, p);
    ReplyOK(h', members, n, p, AppendResp(p.append.term, true, 0));
  }

  /** The accepting half of the handler, once the node is a follower at the request's term. */
  lemma AcceptStep(c: Cluster, h: History, n: Id, p: Packet, sent: set<Packet>) returns (h': History)
    requires Inv(c, h) && n in c.members && p in c.net && p.AppendRequest? && p.to == n
    requires c.nodes[n].term == p.append.term && c.nodes[n].role == Follower
    requires Numbered(p.append.entries, p.append.prevIndex) && Conflict(c.nodes[n].log, p.append) == 0
    requires sent == {AppendReply(n, p.append, AppendResp(p.append.term, true, 0))}
    ensures Inv(Update(c, n, Accept(c.nodes[n], p.append), sent), h') && Extends(h, h')
  {
    hide Inv, LeadersOK, CandidatesOK, KeysOK, AcksKept, VotesKept, LeadersComplete, Merged, Accept, Accepts;
    hide NodeOK, LogOK, TermsUpTo, VoteOK, RoleOK, PeersOK, AckOK, CommitOK, Extends, OnlyBy;
    Parts(c, h, n);
    PacketPart(c, h, p);
    var v := Accept(c.nodes[n], p.append);
    h' := Acknowledge(h, n, p.append.term, p.append.prevIndex + |p.append.entries|);
    AcceptHistory(h, c.members, n, p, h');
    AcceptNode(c, h, n, p.append);
    AcceptLogs(c, h, n, p.append, v, sent, Update(c, n, v, sent), h');
    Assemble(c, h, n, v, sent, Update(c, n, v, sent), h');
  }
}
