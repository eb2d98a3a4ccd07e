/** When votes and pre-votes are granted, read off the states of a run and the packets in it. */
module RaftVotes {
  import opened ByteStrings
  import opened RaftTypes
  import opened RaftHandlers
  import opened RaftCluster
  import opened RaftInvariants
  import opened RaftFrame
  import opened RaftRuns
  import opened RaftSafety
  import opened RaftRestart

  /** The least number of nodes that are more than half of the group. */
  lemma MajorityIsLeast(peers: nat, k: nat)
    ensures k >= Majority(peers) <==> 2 * k > peers + 1
  {
  }

  // ----- requests tell the truth -----

  /** The log ends in this term and index; an empty log in 0 and 0. */
  predicate EndsIn(log: seq<LogEntry>, term: nat, index: nat) {
    index == |log| && term == if log == [] then 0 else log[|log| - 1].term
  }

  lemma NewVoteRequest(c: Cluster, a: Action, p: Packet)
    requires WfCluster(c) && Enabled(c, a) && p in Apply(c, a).net && p !in c.net && p.VoteRequest?
    ensures a.PreVoteAt? || a.CampaignAt?
    ensures a.n in c.nodes && p.vote.candidate == a.n && p.to in Peers(c, a.n) && p.vote.preVote == a.PreVoteAt?
    ensures p.vote.term == c.nodes[a.n].term + 1 && EndsIn(c.nodes[a.n].log, p.vote.lastLogTerm, p.vote.lastLogIndex)
  {
    hide HandleAppend, HandleVote, OnVoteReply, OnAppendReply, Submit, BecomeLeader, Numbered, CanCampaign, CanLead, NextFor, MakeAppend;
  }

  /** Every vote request, of either phase, tells the end of the log that its candidate had when it asked, for the term after its own. */
  lemma {:induction false} VoteRequestOrigin(states: seq<Cluster>, acts: seq<Action>, i: nat, p: Packet) returns (q: nat)
    requires IsRun(states, acts) && i < |states| && p in states[i].net && p.VoteRequest?
    ensures q < i && |states| == |acts| + 1 && acts[q] == (if p.vote.preVote then PreVoteAt(p.vote.candidate) else CampaignAt(p.vote.candidate))
    ensures p.vote.candidate in states[q].nodes && p.to in Peers(states[q], p.vote.candidate)
    ensures p.vote.term == states[q].nodes[p.vote.candidate].term + 1
    ensures EndsIn(states[q].nodes[p.vote.candidate].log, p.vote.lastLogTerm, p.vote.lastLogIndex)
  {
    hide IsRun, Apply, Enabled, EndsIn;
    FreshNet(states, acts);
    StepAt(states, acts, i - 1);
    if p in states[i - 1].net {
      q := VoteRequestOrigin(states, acts, i - 1, p);
    } else {
      NewVoteRequest(states[i - 1], acts[i - 1], p);
      q := i - 1;
    }
  }

  // ----- evidence of votes -----

  /** A granted reply of n to candidate m in term t. */
  predicate Promise(p: Packet, n: Id, m: Id, t: nat) {
    p.VoteReply? && p.from == n && !p.vote.preVote && p.vote.term == t && p.vote.candidate == m && p.voteResp.granted
  }

  /** A request of candidate m in term t. */
  predicate Candidacy(p: Packet, m: Id, t: nat) {
    p.VoteRequest? && !p.vote.preVote && p.vote.candidate == m && p.vote.term == t
  }

  /** In term t, n has promised its vote to m, or runs itself and m is n. */
  ghost predicate VotedFor(net: set<Packet>, n: Id, m: Id, t: nat) {
    exists p :: p in net && (Promise(p, n, m, t) || (m == n && Candidacy(p, n, t)))
  }

  ghost predicate Evident(c: Cluster, n: Id)
    requires n in c.nodes
  {
    c.nodes[n].votedFor != NOBODY && Peers(c, n) != {} ==> VotedFor(c.net, n, c.nodes[n].votedFor, c.nodes[n].term)
  }

  lemma VotedForStays(net: set<Packet>, more: set<Packet>, n: Id, m: Id, t: nat)
    requires VotedFor(net, n, m, t) && net <= more
    ensures VotedFor(more, n, m, t)
  {
  }

  /** A step of n that neither grants a vote nor runs for a term. */
  lemma VoteStays(c: Cluster, a: Action)
    requires WfCluster(c) && Enabled(c, a) && !a.HandleVoteAt? && !a.CampaignAt?
    ensures a.n in c.nodes && a.n in Apply(c, a).nodes
    ensures var s, s' := c.nodes[a.n], Apply(c, a).nodes[a.n];
            s'.votedFor == NOBODY || (s'.votedFor == s.votedFor && s'.term == s.term)
  {
    hide HandleAppend, OnAppendReply, Submit, WfLog, Numbered, CanLead, NextFor;
    match a
    case HandleAppendAt(n, p) => AppendVote(c.nodes[n], p.append);
    case AppendReplyAt(n, p) => AppendReplyVote(c.nodes[n], Peers(c, n), p.from, p.append, p.appendResp);
    case SubmitAt(n, command) => SubmitVote(c.nodes[n], Peers(c, n), command);
    case _ =>
  }

  lemma AppendVote(s: NodeState, req: AppendReq)
    requires WfLog(s.log) && Numbered(req.entries, req.prevIndex)
    ensures var s' := HandleAppend(s, req).0; s'.votedFor == NOBODY || (s'.votedFor == s.votedFor && s'.term == s.term)
  {
    hide Splice;
  }

  lemma AppendReplyVote(s: NodeState, peers: set<Id>, from: Id, req: AppendReq, resp: AppendResp)
    requires WfLog(s.log)
    ensures var s' := OnAppendReply(s, peers, from, req, resp); s'.votedFor == NOBODY || (s'.votedFor == s.votedFor && s'.term == s.term)
  {
  }

  lemma SubmitVote(s: NodeState, peers: set<Id>, command: Str)
    requires WfLog(s.log) && s.role == Leader
    ensures Submit(s, peers, command).votedFor == s.votedFor && Submit(s, peers, command).term == s.term
  {
  }

  lemma NetGrows(c: Cluster, a: Action)
    requires WfCluster(c) && Enabled(c, a)
    ensures c.net <= Apply(c, a).net
  {
    hide HandleAppend, HandleVote, OnVoteReply, OnAppendReply, Submit, BecomeLeader, WfLog, Numbered, CanCampaign, CanLead, NextFor, MakeAppend;
  }

  lemma CampaignEvident(c: Cluster, n: Id)
    requires WfCluster(c) && Enabled(c, CampaignAt(n))
    ensures n in Apply(c, CampaignAt(n)).nodes && Evident(Apply(c, CampaignAt(n)), n)
  {
    hide CanCampaign, WfLog;
    var c' := Apply(c, CampaignAt(n));
    if Peers(c, n) != {} {
      var to :| to in Peers(c, n);
      var req := BeginVote(c.nodes[n], n).1;
      assert VoteRequest(to, req) in c'.net && Candidacy(VoteRequest(to, req), n, c'.nodes[n].term);
    }
  }

  lemma GrantEvident(c: Cluster, a: Action)
    requires WfCluster(c) && Enabled(c, a) && a.HandleVoteAt? && a.n in c.nodes && Evident(c, a.n)
    ensures a.n in Apply(c, a).nodes && Evident(Apply(c, a), a.n)
  {
    hide UpToDate, VotedFor, WfLog;
    var n, s := a.n, c.nodes[a.n];
    var c' := Apply(c, a);
    var (t, resp) := HandleVote(s, a.p.vote, a.leaderless);
    if !a.p.vote.preVote && resp.granted {
      GivesEvidence(c'.net, VoteReply(n, a.p.vote, resp), n, t.votedFor, t.term);
    } else if t.votedFor != NOBODY && Peers(c, n) != {} {
      VotedForStays(c.net, c'.net, n, t.votedFor, t.term);
    }
  }

  lemma GivesEvidence(net: set<Packet>, p: Packet, n: Id, m: Id, t: nat)
    requires p in net && Promise(p, n, m, t)
    ensures VotedFor(net, n, m, t)
  {
  }

  lemma EvidentStep(c: Cluster, a: Action, n: Id)
    requires WfCluster(c) && Enabled(c, a) && n in c.members && Evident(c, n)
    ensures n in Apply(c, a).nodes && Evident(Apply(c, a), n)
  {
    hide Apply, Enabled, VotedFor;
    var c' := Apply(c, a);
    OthersStay(c, a, n);
    ApplyMembers(c, a);
    if a.n == n && a.HandleVoteAt? {
      GrantEvident(c, a);
    } else if a.n == n && a.CampaignAt? {
      CampaignEvident(c, n);
    } else {
      NetGrows(c, a);
      if a.n == n {
        VoteStays(c, a);
      }
      if c'.nodes[n].votedFor != NOBODY && Peers(c', n) != {} {
        VotedForStays(c.net, c'.net, n, c'.nodes[n].votedFor, c'.nodes[n].term);
      }
    }
  }

  lemma {:induction false} AllEvident(states: seq<Cluster>, acts: seq<Action>, i: nat, n: Id)
    requires IsRun(states, acts) && i < |states| && n in states[i].members
    ensures n in states[i].nodes && Evident(states[i], n)
  {
    hide IsRun, Apply, Enabled, Evident;
    AllWf(states, acts);
    if i == 0 {
      FreshEvident(states, acts, n);
    } else {
      LastIsWf(states, acts);
      StepAt(states, acts, i - 1);
      ApplyMembers(states[i - 1], acts[i - 1]);
      AllEvident(states, acts, i - 1, n);
      EvidentStep(states[i - 1], acts[i - 1], n);
    }
  }

  lemma FreshEvident(states: seq<Cluster>, acts: seq<Action>, n: Id)
    requires IsRun(states, acts) && n in states[0].members
    ensures n in states[0].nodes && Evident(states[0], n)
  {
    hide Apply, Enabled, VotedFor;
  }

  lemma EvidenceHolds(c: Cluster, h: History, n: Id, m: Id, t: nat)
    requires Inv(c, h) && n in c.members && VotedFor(c.net, n, m, t)
    ensures n in c.nodes && m != NOBODY && t <= c.nodes[n].term && (t == c.nodes[n].term ==> c.nodes[n].votedFor == m)
  {
    hide LeadersOK, CandidatesOK, AcksKept, VotesKept, LeadersComplete;
    hide LogOK, TermsUpTo, RoleOK, PeersOK, AckOK, CommitOK;
    var p :| p in c.net && (Promise(p, n, m, t) || (m == n && Candidacy(p, n, t)));
    assert PacketOK(h, c.members, p) && NodeOK(h, c.members, n, c.nodes[n]);
  }

  // ----- when a vote is granted -----

  /** Log l ends in a newer term than log f, or in the same term and is no shorter. */
  predicate Covers(l: seq<LogEntry>, f: seq<LogEntry>) {
    || f == []
    || (l != [] && (var lt, ft := l[|l| - 1].term, f[|f| - 1].term; lt > ft || (lt == ft && |l| >= |f|)))
  }

  lemma UpToDateIff(req: VoteReq, l: seq<LogEntry>, f: seq<LogEntry>)
    requires WfLog(f) && EndsIn(l, req.lastLogTerm, req.lastLogIndex)
    ensures UpToDate(req, f) <==> Covers(l, f)
  {
  }

  /**
    Over every run: a vote request of step q is granted at step i exactly if its term is not older than the
    voter's, the voter has not promised its vote in that term to another node nor run itself, and the log that
    the candidate had at step q covers the voter's.
   */
  lemma VoteGrantedIff(states: seq<Cluster>, acts: seq<Action>, i: nat) returns (q: nat, resp: VoteResp)
    requires IsRun(states, acts) && i < |acts| && acts[i].HandleVoteAt? && acts[i].p.VoteRequest? && !acts[i].p.vote.preVote
    ensures q < i && |states| == |acts| + 1 && acts[q] == CampaignAt(acts[i].p.vote.candidate)
    ensures acts[q].n in states[q].nodes && acts[i].n in states[i].nodes && acts[i].p.vote.term == states[q].nodes[acts[q].n].term + 1
    ensures states[i + 1].net == states[i].net + {VoteReply(acts[i].n, acts[i].p.vote, resp)}
    ensures var n, s, req := acts[i].n, states[i].nodes[acts[i].n], acts[i].p.vote;
            resp.granted <==> && req.term >= s.term
                              && (forall m :: VotedFor(states[i].net, n, m, req.term) ==> m == req.candidate)
                              && Covers(states[q].nodes[acts[q].n].log, s.log)
  {
    hide IsRun, Inv, Extends, VotedFor, Covers, EndsIn, UpToDate;
    StepAt(states, acts, i);
    var hs := Histories(states, acts);
    var n, p := acts[i].n, acts[i].p;
    q := VoteRequestOrigin(states, acts, i, p);
    resp := HandleVote(states[i].nodes[n], p.vote, acts[i].leaderless).1;
    UpToDateIff(p.vote, states[q].nodes[acts[q].n].log, states[i].nodes[n].log);
    AllEvident(states, acts, i, n);
    AskedByOther(states[i], hs[i], p);
    forall m | VotedFor(states[i].net, n, m, p.vote.term)
      ensures m != NOBODY && p.vote.term <= states[i].nodes[n].term
      ensures p.vote.term == states[i].nodes[n].term ==> states[i].nodes[n].votedFor == m
    {
      EvidenceHolds(states[i], hs[i], n, m, p.vote.term);
    }
  }

  lemma AskedByOther(c: Cluster, h: History, p: Packet)
    requires Inv(c, h) && p in c.net && p.VoteRequest?
    ensures p.to in c.members && p.vote.candidate in Peers(c, p.to)
  {
    assert PacketOK(h, c.members, p);
  }

  /**
    Over every run: a pre-vote request of step q changes no node, and is granted at step i exactly if no leader
    was heard lately, the voter does not lead, the term is not older, and the candidate's log covers the voter's.
   */
  lemma PreVoteGrantedIff(states: seq<Cluster>, acts: seq<Action>, i: nat) returns (q: nat, resp: VoteResp)
    requires IsRun(states, acts) && i < |acts| && acts[i].HandleVoteAt? && acts[i].p.VoteRequest? && acts[i].p.vote.preVote
    ensures q < i && |states| == |acts| + 1 && acts[q] == PreVoteAt(acts[i].p.vote.candidate)
    ensures acts[q].n in states[q].nodes && acts[i].n in states[i].nodes && acts[i].p.vote.term == states[q].nodes[acts[q].n].term + 1
    ensures states[i + 1].nodes == states[i].nodes && states[i + 1].net == states[i].net + {VoteReply(acts[i].n, acts[i].p.vote, resp)}
    ensures var s, req := states[i].nodes[acts[i].n], acts[i].p.vote;
            resp.granted <==> && acts[i].leaderless && s.role != Leader && req.term >= s.term
                              && Covers(states[q].nodes[acts[q].n].log, s.log)
  {
    hide IsRun, Covers, EndsIn, UpToDate;
    StepAt(states, acts, i);
    var n, p := acts[i].n, acts[i].p;
    q := VoteRequestOrigin(states, acts, i, p);
    resp := HandleVote(states[i].nodes[n], p.vote, acts[i].leaderless).1;
    UpToDateIff(p.vote, states[q].nodes[acts[q].n].log, states[i].nodes[n].log);
  }

  // ----- elections -----

  /** A candidate counts the peers that granted its round, each once; the counts of another round do not matter. */
  lemma GrantCounts(states: seq<Cluster>, acts: seq<Action>, i: nat)
    requires IsRun(states, acts) && i < |acts| && acts[i].VoteReplyAt? && acts[i].p.VoteReply?
    ensures |states| == |acts| + 1 && acts[i].n in states[i].nodes && acts[i].n in states[i + 1].nodes
    ensures var s, s', p := states[i].nodes[acts[i].n], states[i + 1].nodes[acts[i].n], acts[i].p;
            var current := if p.vote.preVote then s.round.PreVoteRound? && s.round.term == p.vote.term
                           else s.role == Candidate && s.term == p.vote.term && s.round.VoteRound? && s.round.term == p.vote.term;
            p.voteResp.term <= s.term ==>
              if current && p.voteResp.granted
              then !s'.round.NoRound? && s'.round.granted == s.round.granted + {p.from} && s' == s.(round := s'.round) && s'.round.term == s.round.term
              else s' == s
  {
    hide IsRun;
    StepAt(states, acts, i);
  }

  /** Every peer is asked the same. */
  predicate AsksAll(net: set<Packet>, net': set<Packet>, peers: set<Id>, req: VoteReq) {
    net' == net + set p | p in peers :: VoteRequest(p, req)
  }

  /** The last term of a log, 0 for an empty one. */
  function EndTerm(log: seq<LogEntry>): nat {
    if log == [] then 0 else log[|log| - 1].term
  }

  /** A pre-vote round asks every peer for the term after the node's own, and touches neither term nor vote. */
  lemma PreVoteMeans(states: seq<Cluster>, acts: seq<Action>, i: nat)
    requires IsRun(states, acts) && i < |acts| && acts[i].PreVoteAt?
    ensures |states| == |acts| + 1 && acts[i].n in states[i].nodes && acts[i].n in states[i + 1].nodes
    ensures var c, c', n := states[i], states[i + 1], acts[i].n;
            var s := c.nodes[n];
            && c'.nodes[n] == s.(round := PreVoteRound(s.term + 1, {}))
            && AsksAll(c.net, c'.net, c.members - {n}, VoteReq(true, s.term + 1, n, |s.log|, EndTerm(s.log)))
  {
    hide IsRun;
    StepAt(states, acts, i);
  }

  /** A campaign takes a pre-vote round won by a majority; the node votes for itself in the next term and asks every peer. */
  lemma CampaignMeans(states: seq<Cluster>, acts: seq<Action>, i: nat)
    requires IsRun(states, acts) && i < |acts| && acts[i].CampaignAt?
    ensures |states| == |acts| + 1 && acts[i].n in states[i].nodes && acts[i].n in states[i + 1].nodes
    ensures var c, c', n := states[i], states[i + 1], acts[i].n;
            var s := c.nodes[n];
            && s.round.PreVoteRound? && s.round.term == s.term + 1 && 2 * (1 + |s.round.granted|) > |c.members|
            && c'.nodes[n] == s.(term := s.term + 1, role := Candidate, votedFor := n, round := VoteRound(s.term + 1, {}))
            && AsksAll(c.net, c'.net, c.members - {n}, VoteReq(false, s.term + 1, n, |s.log|, EndTerm(s.log)))
  {
    hide IsRun;
    StepAt(states, acts, i);
    var c, n := states[i], acts[i].n;
    assert c.members == Peers(c, n) + {n};
    MajorityIsLeast(|Peers(c, n)|, 1 + |c.nodes[n].round.granted|);
  }

  /** A node leads after a vote round of its term won by a majority; it starts to send behind its last entry. */
  lemma LeadMeans(states: seq<Cluster>, acts: seq<Action>, i: nat)
    requires IsRun(states, acts) && i < |acts| && acts[i].LeadAt?
    ensures |states| == |acts| + 1 && acts[i].n in states[i].nodes && acts[i].n in states[i + 1].nodes
    ensures var c, n := states[i], acts[i].n;
            var s, s' := c.nodes[n], states[i + 1].nodes[n];
            && s.role == Candidate && s.round.VoteRound? && s.round.term == s.term && 2 * (1 + |s.round.granted|) > |c.members|
            && s'.role == Leader && s'.term == s.term && s'.log == s.log && s'.commitIndex == s.commitIndex
            && forall p :: p in c.members - {n} ==> && p in s'.nextIndex && s'.nextIndex[p] == |s.log| + 1
                                                    && p in s'.matchIndex && s'.matchIndex[p] == 0
  {
    hide IsRun;
    StepAt(states, acts, i);
    var c, n := states[i], acts[i].n;
    assert c.members == Peers(c, n) + {n};
    MajorityIsLeast(|Peers(c, n)|, 1 + |c.nodes[n].round.granted|);
  }
}
