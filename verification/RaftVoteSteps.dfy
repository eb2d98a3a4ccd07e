/** Casting a vote for another node, or for oneself when an election starts. */
module RaftVoteSteps {
  import opened ByteStrings
  import opened RaftTypes
  import opened RaftHandlers
  import opened RaftCluster
  import opened RaftInvariants
  import opened RaftFrame
  import opened RaftLogs
  import opened RaftQuietSteps

  /**
    A log at least as up-to-date as one that holds an entry which its term may still commit
    holds that entry too.
   */
  lemma UpToDateKeeps(c: Cluster, h: History, f: seq<LogEntry>, g: seq<LogEntry>, u: nat, t: nat, k: nat)
    requires WfCluster(c) && LeadersOK(h, c.members) && LeadersComplete(c, h)
    requires LogOK(h, f) && LogOK(h, g) && u > 0 && TermsUpTo(g, u - 1)
    requires OwnEntry(h, t, k) && Choosable(c, h, t, k) && Keeps(h, t, k, f)
    requires LastTerm(g) > LastTerm(f) || (LastTerm(g) == LastTerm(f) && |g| >= |f|)
    ensures Keeps(h, t, k, g)
  {
    hide LeadersOK;
    var l := h.leaders[t].log;
    assert f[k - 1] == l[..k][k - 1];
    TermsSorted(h, c.members, f);
    var w := LastTerm(g);
    assert EntryOK(h, g, |g| - 1) && g[..|g|] == g;
    if w > t {
      var m := h.leaders[w].log;
      assert Keeps(h, t, k, m) && m[k - 1] == l[..k][k - 1];
      LeaderLogOK(h, c.members, w);
      TermsSorted(h, c.members, m);
    }
  }

  lemma LeaderLogOK(h: History, members: set<Id>, t: nat)
    requires LeadersOK(h, members) && t in h.leaders
    ensures LogOK(h, h.leaders[t].log)
  {
    assert LeaderOK(h, members, t);
  }

  // ----- a vote for a candidate -----

  function CastVote(h: History, n: Id, t: nat, candidate: Id): History {
    h.(votes := h.votes[(n, t) := candidate])
  }

  lemma CastVoteExtends(h: History, members: set<Id>, n: Id, s: NodeState, candidate: Id)
    requires VoteOK(h, n, s) && (s.votedFor == NOBODY || s.votedFor == candidate)
    requires KeysOK(h, members) && NOBODY !in members
    requires n in members && (candidate, s.term) in h.candidates
    ensures Extends(h, CastVote(h, n, s.term, candidate)) && OnlyBy(h, CastVote(h, n, s.term, candidate), n)
    ensures KeysOK(CastVote(h, n, s.term, candidate), members)
  {
    if (n, s.term) in h.votes {
      assert (h.votes[(n, s.term)], s.term) in h.candidates;
    }
    ExtendsRefl(h);
  }

  lemma CastVoteNodeOK(h: History, members: set<Id>, n: Id, s: NodeState, candidate: Id, h': History)
    requires NodeOK(h, members, n, s) && s.role != Candidate && n in members && candidate in members && NOBODY !in members
    requires h' == CastVote(h, n, s.term, candidate) && Extends(h, h')
    ensures NodeOK(h', members, n, s.(votedFor := candidate))
  {
    LogGrows(h, h', s.log);
    CommitGrows(h, h', members, s);
  }

  /** A vote cast in term u keeps what the voter acknowledged in older terms. */
  lemma CastVoteKept(c: Cluster, h: History, n: Id, u: nat, candidate: Id, c': Cluster, h': History)
    requires WfCluster(c) && WfCluster(c') && c'.members == c.members && n in c.members && KeysOK(h, c.members) && KeysOK(h', c.members)
    requires AcksKept(c, h) && VotesKept(c, h) && LeadersComplete(c, h)
    requires h'.leaders == h.leaders && h'.acks == h.acks && Extends(h, h') && Orderly(c, h, c', h')
    requires h'.votes == h.votes[(n, u) := candidate] && (candidate, u) in h'.candidates
    requires forall v :: v in c.members ==> c'.nodes[v].log == c.nodes[v].log
    requires forall t: nat, k: nat :: OwnEntry(h, t, k) && t < u && Choosable(c, h, t, k) && Keeps(h, t, k, c.nodes[n].log) ==>
               Keeps(h, t, k, h'.candidates[(candidate, u)])
    ensures AcksKept(c', h') && VotesKept(c', h') && LeadersComplete(c', h')
  {
    hide Choosable, Orderly, Extends;
    forall v, t: nat, k: nat | v in c'.members && OwnEntry(h', t, k) && k <= Ack(h', v, t) && Choosable(c', h', t, k)
      ensures Keeps(h', t, k, c'.nodes[v].log)
    {
      assert OwnEntry(h, t, k);
      ChoosableShrinks(c, h, c', h', t, k);
    }
    forall t: nat, w: nat, k: nat | OwnEntry(h', t, k) && w in h'.leaders && t < w && Choosable(c', h', t, k)
      ensures Keeps(h', t, k, h'.leaders[w].log)
    {
      assert OwnEntry(h, t, k);
      ChoosableShrinks(c, h, c', h', t, k);
    }
    NewVotesKept(c, h, n, u, candidate, c', h');
  }

  lemma NewVotesKept(c: Cluster, h: History, n: Id, u: nat, candidate: Id, c': Cluster, h': History)
    requires WfCluster(c) && WfCluster(c') && c'.members == c.members && n in c.members && KeysOK(h, c.members) && KeysOK(h', c.members)
    requires AcksKept(c, h) && VotesKept(c, h)
    requires h'.leaders == h.leaders && h'.acks == h.acks && Extends(h, h') && Orderly(c, h, c', h')
    requires h'.votes == h.votes[(n, u) := candidate] && (candidate, u) in h'.candidates
    requires forall t: nat, k: nat :: OwnEntry(h, t, k) && t < u && Choosable(c, h, t, k) && Keeps(h, t, k, c.nodes[n].log) ==>
               Keeps(h, t, k, h'.candidates[(candidate, u)])
    ensures VotesKept(c', h')
  {
    hide Choosable, Orderly;
    forall v, w: nat, t: nat, k: nat | (v, w) in h'.votes && OwnEntry(h', t, k) && t < w && k <= Ack(h', v, t) && Choosable(c', h', t, k)
      ensures Keeps(h', t, k, h'.candidates[(h'.votes[(v, w)], w)])
    {
      assert OwnEntry(h, t, k);
      ChoosableShrinks(c, h, c', h', t, k);
      if (v, w) != (n, u) {
        assert (v, w) in h.votes;
        assert (h.votes[(v, w)], w) in h.candidates;
      }
    }
  }

  /** Granting a vote, once the node is at the request's term. */
  lemma GrantStep(c: Cluster, h: History, n: Id, p: Packet, sent: set<Packet>) returns (h': History)
    requires Inv(c, h) && n in c.members && p in c.net && p.VoteRequest? && !p.vote.preVote && p.to == n
    requires c.nodes[n].term == p.vote.term && c.nodes[n].role != Candidate
    requires c.nodes[n].votedFor == NOBODY || c.nodes[n].votedFor == p.vote.candidate
    requires UpToDate(p.vote, c.nodes[n].log)
    requires sent == {VoteReply(n, p.vote, VoteResp(p.vote.term, true))}
    ensures Inv(Update(c, n, c.nodes[n].(votedFor := p.vote.candidate), sent), h') && Extends(h, h')
  {
    hide Inv, LeadersOK, CandidatesOK, KeysOK, AcksKept, VotesKept, LeadersComplete;
    hide NodeOK, LogOK, TermsUpTo, VoteOK, RoleOK, PeersOK, AckOK, CommitOK, Extends, OnlyBy;
    Parts(c, h, n);
    PacketPart(c, h, p);
    var s, who := c.nodes[n], p.vote.candidate;
    var s' := s.(votedFor := who);
    var c' := Update(c, n, s', sent);
    h' := CastVote(h, n, s.term, who);
    CastVoteExtends(h, c.members, n, s, who);
    CastVoteNodeOK(h, c.members, n, s, who, h');
    HistoryStays(h, h', c.members);
    StepIsOrderly(c, h, n, s', sent, h');
    CandidateLog(h, who, s.term);
    LogOKIsWf(h, s.log);
    forall t: nat, k: nat | OwnEntry(h, t, k) && t < s.term && Choosable(c, h, t, k) && Keeps(h, t, k, s.log)
      ensures Keeps(h, t, k, h.candidates[(who, s.term)])
    {
      UpToDateKeeps(c, h, s.log, h.candidates[(who, s.term)], s.term, t, k);
    }
    CastVoteKept(c, h, n, s.term, who, c', h');
    Assemble(c, h, n, s', sent, c', h');
  }

  lemma CandidateLog(h: History, n: Id, t: nat)
    requires CandidatesOK(h) && (n, t) in h.candidates
    ensures t > 0 && LogOK(h, h.candidates[(n, t)]) && TermsUpTo(h.candidates[(n, t)], t - 1)
  {
  }

  // ----- a vote for oneself -----

  function Run(h: History, n: Id, t: nat, log: seq<LogEntry>): History {
    h.(votes := h.votes[(n, t) := n], candidates := h.candidates[(n, t) := log])
  }

  lemma RunExtends(h: History, members: set<Id>, n: Id, s: NodeState, h': History)
    requires KeysOK(h, members) && VoteOK(h, n, s) && n in members && h' == Run(h, n, s.term + 1, s.log)
    ensures Extends(h, h') && OnlyBy(h, h', n) && KeysOK(h', members)
  {
    ExtendsRefl(h);
    assert (n, s.term + 1) !in h.votes && (n, s.term + 1) !in h.candidates;
  }

  lemma RunHistoryOK(h: History, members: set<Id>, n: Id, s: NodeState, h': History)
    requires LeadersOK(h, members) && CandidatesOK(h) && LogOK(h, s.log) && TermsUpTo(s.log, s.term)
    requires h' == Run(h, n, s.term + 1, s.log) && Extends(h, h')
    ensures LeadersOK(h', members) && CandidatesOK(h')
  {
    forall t | t in h'.leaders
      ensures LeaderOK(h', members, t)
    {
      assert LeaderOK(h, members, t);
      LogGrows(h, h', h.leaders[t].log);
    }
    forall v, t | (v, t) in h'.candidates
      ensures t > 0 && LogOK(h', h'.candidates[(v, t)]) && TermsUpTo(h'.candidates[(v, t)], t - 1)
    {
      LogGrows(h, h', h'.candidates[(v, t)]);
    }
  }

  lemma RunNodeOK(h: History, members: set<Id>, n: Id, s: NodeState, h': History)
    requires NodeOK(h, members, n, s) && n in members && NOBODY !in members
    requires h' == Run(h, n, s.term + 1, s.log) && Extends(h, h')
    ensures NodeOK(h', members, n, BeginVote(s, n).0)
  {
    LogGrows(h, h', s.log);
    PrefixGrows(h, h', members, s.log[..s.commitIndex], s.term, s.term + 1);
  }

  lemma RunPacketsOK(h: History, members: set<Id>, n: Id, s: NodeState, p: Packet)
    requires n in members && WfLog(s.log) && (n, s.term + 1) in h.candidates && h.candidates[(n, s.term + 1)] == s.log
    requires p in Ask(members - {n}, BeginVote(s, n).1)
    ensures PacketOK(h, members, p)
  {
  }

  /** Starting an election. */
  lemma CampaignStep(c: Cluster, h: History, n: Id) returns (h': History)
    requires Inv(c, h) && Enabled(c, CampaignAt(n))
    ensures Inv(Apply(c, CampaignAt(n)), h') && Extends(h, h')
  {
    hide Inv, LeadersOK, CandidatesOK, KeysOK, AcksKept, VotesKept, LeadersComplete, CanCampaign;
    hide NodeOK, LogOK, TermsUpTo, VoteOK, RoleOK, PeersOK, AckOK, CommitOK, Extends, OnlyBy, PacketOK;
    Parts(c, h, n);
    var s := c.nodes[n];
    var s', sent := BeginVote(s, n).0, Ask(Peers(c, n), BeginVote(s, n).1);
    var c' := Update(c, n, s', sent);
    h' := Run(h, n, s.term + 1, s.log);
    RunExtends(h, c.members, n, s, h');
    RunHistoryOK(h, c.members, n, s, h');
    RunNodeOK(h, c.members, n, s, h');
    StepIsOrderly(c, h, n, s', sent, h');
    CastVoteKept(c, h, n, s.term + 1, n, c', h');
    forall p | p in sent
      ensures PacketOK(h', c.members, p)
    {
      RunPacketsOK(h', c.members, n, s, p);
    }
    Assemble(c, h, n, s', sent, c', h');
  }
}
