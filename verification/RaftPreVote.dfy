/**
  Pre-vote, as section 9.6 of Ongaro's thesis describes it: a term rises only after a majority has
  said that it would vote in it, so a group of nodes that is cut off cannot raise its term.
 */
module RaftPreVote {
  import opened ByteStrings
  import opened RaftTypes
  import opened RaftHandlers
  import opened RaftCluster
  import opened RaftInvariants
  import opened RaftFrame
  import opened RaftRuns
  import opened RaftSafety

  /** The term a packet carries; a pre-vote request names a term that nobody is in. */
  function TermOf(p: Packet): nat {
    match p
    case VoteRequest(_, req) => if req.preVote then 0 else req.term
    case VoteReply(_, _, resp) => resp.term
    case AppendRequest(_, req) => req.term
    case AppendReply(_, _, resp) => resp.term
  }

  function Sender(p: Packet): Id {
    match p
    case VoteRequest(_, req) => req.candidate
    case VoteReply(from, _, _) => from
    case AppendRequest(_, req) => req.leader
    case AppendReply(from, _, _) => from
  }

  /** No node, and no packet but pre-vote requests, is past term m. */
  predicate Bounded(c: Cluster, m: nat)
    requires WfCluster(c)
  {
    && (forall n :: n in c.members ==> c.nodes[n].term <= m)
    && (forall p :: p in c.net ==> TermOf(p) <= m)
  }

  /** Peer p told n that it would vote for n in term t. */
  ghost predicate WouldVote(net: set<Packet>, p: Id, n: Id, t: nat) {
    exists q :: q in net && q.VoteReply? && q.from == p && q.vote.preVote && q.vote.term == t &&
                q.vote.candidate == n && q.voteResp.granted
  }

  ghost predicate TrialOK(c: Cluster, n: Id)
    requires WfCluster(c) && n in c.members
  {
    c.nodes[n].round.PreVoteRound? ==>
      forall p :: p in c.nodes[n].round.granted ==> p in c.members - {n} && WouldVote(c.net, p, n, c.nodes[n].round.term)
  }

  /** A term rises only when a node campaigns for exactly the next one. */
  lemma RiseIsCampaign(c: Cluster, a: Action, m: nat)
    requires WfCluster(c) && Enabled(c, a) && WfCluster(Apply(c, a))
    requires Bounded(c, m) && !Bounded(Apply(c, a), m)
    ensures a.CampaignAt? && c.nodes[a.n].term == m && c.nodes[a.n].round.term == m + 1
  {
    hide Apply, Bounded, WfLog, Guard, Safe;
    if a.CampaignAt? {
      CampaignRise(c, a, m);
    } else {
      OthersStay(c, a);
      BoundedStep(c, a, m);
    }
  }

  lemma OthersStay(c: Cluster, a: Action)
    requires WfCluster(c) && Enabled(c, a)
    ensures a.n in c.members && Apply(c, a).members == c.members
    ensures forall n :: n in c.members && n != a.n ==> n in Apply(c, a).nodes && Apply(c, a).nodes[n] == c.nodes[n]
  {
    hide OnVoteReply, HandleVote, OnAppendReply, HandleAppend, Submit, UpToDate, WfLog, Numbered, MakeAppend, BecomeLeader;
  }

  lemma CampaignRise(c: Cluster, a: Action, m: nat)
    requires WfCluster(c) && a.CampaignAt? && Enabled(c, a) && WfCluster(Apply(c, a))
    requires Bounded(c, m) && !Bounded(Apply(c, a), m)
    ensures c.nodes[a.n].term == m && c.nodes[a.n].round.term == m + 1
  {
    hide WfLog;
  }

  lemma Delivered(c: Cluster, a: Action)
    requires WfCluster(c) && Enabled(c, a)
    ensures Delivery(a) ==> a.p in c.net
  {
  }

  lemma BoundedStep(c: Cluster, a: Action, m: nat)
    requires WfCluster(c) && Enabled(c, a) && WfCluster(Apply(c, a)) && !a.CampaignAt?
    requires a.n in c.members && Apply(c, a).members == c.members
    requires forall n :: n in c.members && n != a.n ==> Apply(c, a).nodes[n] == c.nodes[n]
    requires Bounded(c, m)
    ensures Bounded(Apply(c, a), m)
  {
    hide Apply, WfLog, Guard, Safe;
    Delivered(c, a);
    StepTerm(c, a, m);
    forall p | p in Apply(c, a).net
      ensures TermOf(p) <= m
    {
      if p !in c.net {
        SentTerm(c, a, m, p);
      }
    }
  }

  lemma AppendReplyTerm(s: NodeState, peers: set<Id>, from: Id, req: AppendReq, resp: AppendResp)
    requires WfLog(s.log)
    ensures OnAppendReply(s, peers, from, req, resp).term == s.term || OnAppendReply(s, peers, from, req, resp).term == resp.term
  {
  }

  lemma AppendTerm(s: NodeState, req: AppendReq)
    requires WfLog(s.log) && Numbered(req.entries, req.prevIndex)
    ensures HandleAppend(s, req).0.term == HandleAppend(s, req).1.term == if req.term < s.term then s.term else req.term
  {
    hide Splice;
  }

  lemma SubmitTerm(s: NodeState, peers: set<Id>, command: Str)
    requires WfLog(s.log) && s.role == Leader
    ensures Submit(s, peers, command).term == s.term
  {
  }

  lemma StepTerm(c: Cluster, a: Action, m: nat)
    requires WfCluster(c) && Enabled(c, a) && !a.CampaignAt? && c.nodes[a.n].term <= m
    requires Delivery(a) ==> TermOf(a.p) <= m
    ensures Apply(c, a).nodes[a.n].term <= m
  {
    hide OnAppendReply, HandleAppend, Submit, UpToDate, WfLog, Numbered;
    var s := c.nodes[a.n];
    match a
    case AppendReplyAt(n, p) => AppendReplyTerm(s, Peers(c, n), p.from, p.append, p.appendResp);
    case HandleAppendAt(n, p) => AppendTerm(s, p.append);
    case SubmitAt(n, command) => SubmitTerm(s, Peers(c, n), command);
    case _ =>
  }

  lemma SentTerm(c: Cluster, a: Action, m: nat, p: Packet)
    requires WfCluster(c) && Enabled(c, a) && !a.CampaignAt? && c.nodes[a.n].term <= m
    requires (a.HandleVoteAt? || a.HandleAppendAt?) ==> TermOf(a.p) <= m
    requires p in Apply(c, a).net && p !in c.net
    ensures TermOf(p) <= m && Sender(p) == a.n
  {
    hide OnAppendReply, HandleAppend, Submit, UpToDate, WfLog, Numbered;
    if a.HandleAppendAt? {
      AppendTerm(c.nodes[a.n], a.p.append);
    }
  }

  lemma VoteReplyRound(s: NodeState, from: Id, req: VoteReq, resp: VoteResp)
    ensures var r, r' := s.round, OnVoteReply(s, from, req, resp).round;
            r'.PreVoteRound? ==>
              || r' == r
              || (req.preVote && resp.granted && r == PreVoteRound(req.term, r'.granted - {from}) && r'.term == r.term && from in r'.granted)
  {
    if s.round.PreVoteRound? {
      if from in s.round.granted {
        assert s.round.granted + {from} == s.round.granted;
      } else {
        assert s.round.granted + {from} - {from} == s.round.granted;
      }
    }
  }

  lemma AppendReplyRound(s: NodeState, peers: set<Id>, from: Id, req: AppendReq, resp: AppendResp)
    requires WfLog(s.log)
    ensures OnAppendReply(s, peers, from, req, resp).round == s.round
  {
  }

  lemma AppendRound(s: NodeState, req: AppendReq)
    requires WfLog(s.log) && Numbered(req.entries, req.prevIndex)
    ensures HandleAppend(s, req).0.round == s.round
  {
    hide Splice;
  }

  lemma SubmitRound(s: NodeState, peers: set<Id>, command: Str)
    requires WfLog(s.log) && s.role == Leader
    ensures Submit(s, peers, command).round == s.round
  {
  }

  /** How a pre-vote round changes. */
  lemma RoundStep(c: Cluster, a: Action)
    requires WfCluster(c) && Enabled(c, a)
    ensures var r, r' := c.nodes[a.n].round, Apply(c, a).nodes[a.n].round;
            r'.PreVoteRound? ==>
              || r' == r
              || r'.granted == {}
              || (a.VoteReplyAt? && a.p.vote.preVote && a.p.voteResp.granted &&
                  r == PreVoteRound(a.p.vote.term, r'.granted - {a.p.from}) && r'.term == r.term && a.p.from in r'.granted)
    ensures c.net <= Apply(c, a).net && Apply(c, a).members == c.members
    ensures forall n :: n in c.members && n != a.n ==> n in Apply(c, a).nodes && Apply(c, a).nodes[n] == c.nodes[n]
  {
    hide OnVoteReply, OnAppendReply, HandleAppend, Submit, UpToDate, WfLog, Numbered, MakeAppend;
    var s := c.nodes[a.n];
    match a
    case VoteReplyAt(n, p) => VoteReplyRound(s, p.from, p.vote, p.voteResp);
    case AppendReplyAt(n, p) => AppendReplyRound(s, Peers(c, n), p.from, p.append, p.appendResp);
    case HandleAppendAt(n, p) => AppendRound(s, p.append);
    case SubmitAt(n, command) => SubmitRound(s, Peers(c, n), command);
    case _ =>
  }

  lemma TrialStep(c: Cluster, h: History, a: Action, n: Id)
    requires Inv(c, h) && WfCluster(c) && Enabled(c, a) && WfCluster(Apply(c, a)) && n in c.members && TrialOK(c, n)
    ensures n in Apply(c, a).members && TrialOK(Apply(c, a), n)
  {
    hide Inv, Apply;
    var c' := Apply(c, a);
    RoundStep(c, a);
    if a.VoteReplyAt? {
      PacketPart(c, h, a.p);
    }
    if c'.nodes[n].round.PreVoteRound? {
      forall p | p in c'.nodes[n].round.granted
        ensures p in c.members - {n} && WouldVote(c'.net, p, n, c'.nodes[n].round.term)
      {
        if c.nodes[n].round.PreVoteRound? && c.nodes[n].round.term == c'.nodes[n].round.term && p in c.nodes[n].round.granted {
          assert WouldVote(c.net, p, n, c.nodes[n].round.term);
        } else {
          assert a.VoteReplyAt? && a.p in c'.net && a.p.from == p;
        }
      }
    }
  }

  lemma FreshTrial(states: seq<Cluster>, acts: seq<Action>, n: Id)
    requires IsRun(states, acts) && n in states[0].members
    ensures TrialOK(states[0], n)
  {
  }

  lemma {:induction false} TrialsOK(states: seq<Cluster>, acts: seq<Action>, hs: seq<History>, i: nat, n: Id)
    requires IsRun(states, acts) && |hs| == |states| && i < |states| && n in states[i].members
    requires forall k :: 0 <= k < |states| ==> Inv(states[k], hs[k])
    ensures TrialOK(states[i], n)
  {
    hide IsRun, Inv, TrialOK, Apply, Enabled;
    LastIsWf(states, acts);
    if i == 0 {
      FreshTrial(states, acts, n);
    } else {
      StepAt(states, acts, i - 1);
      ApplyMembers(states[i - 1], acts[i - 1]);
      TrialsOK(states, acts, hs, i - 1, n);
      TrialStep(states[i - 1], hs[i - 1], acts[i - 1], n);
    }
  }

  lemma CampaignRaises(c: Cluster, n: Id)
    requires WfCluster(c) && Enabled(c, CampaignAt(n))
    ensures n in c.nodes && n in Apply(c, CampaignAt(n)).nodes && Apply(c, CampaignAt(n)).nodes[n].term == c.nodes[n].term + 1
  {
    hide CanCampaign, WfLog;
  }

  /**
    Over every run, the highest term rises only to the next one, and only by a campaign of a node to
    which enough peers to make a majority with it have promised their vote in exactly that term.
   */
  lemma TermRisesAfterPreVotes(states: seq<Cluster>, acts: seq<Action>, i: nat, m: nat) returns (n: Id, would: set<Id>)
    requires IsRun(states, acts) && i < |acts| && Bounded(states[i], m) && !Bounded(states[i + 1], m)
    ensures acts[i] == CampaignAt(n) && n in states[i].members
    ensures states[i].nodes[n].term == m && states[i + 1].nodes[n].term == m + 1
    ensures IsMajority(states[i].members, {n} + would) && n !in would
    ensures forall p :: p in would ==> WouldVote(states[i].net, p, n, m + 1)
  {
    hide IsRun, Inv, Extends, Bounded, WouldVote, Apply, Safe;
    var hs := Histories(states, acts);
    StepAt(states, acts, i);
    n := acts[i].n;
    RiseIsCampaign(states[i], acts[i], m);
    CampaignRaises(states[i], n);
    TrialsOK(states, acts, hs, i, n);
    would := states[i].nodes[n].round.granted;
    assert states[i].members == Peers(states[i], n) + {n};
  }

  // ----- a group that is cut off -----

  /** In every step from state i to state j, nodes of the group hear only from nodes of the group. */
  predicate CutOff(acts: seq<Action>, i: nat, j: nat, group: set<Id>)
    requires i <= j <= |acts|
  {
    forall k :: i <= k < j && acts[k].n in group && Delivery(acts[k]) ==> Sender(acts[k].p) in group
  }

  /** The group is at most in term m, and its rounds count promises of the group only. */
  predicate GroupBounded(c: Cluster, group: set<Id>, m: nat)
    requires WfCluster(c)
  {
    && (forall n :: n in c.members && n in group ==>
          c.nodes[n].term <= m && (c.nodes[n].round.PreVoteRound? ==> c.nodes[n].round.granted <= group - {n}))
    && (forall p :: p in c.net && Sender(p) in group ==> TermOf(p) <= m)
  }

  lemma NoCampaign(c: Cluster, group: set<Id>, n: Id)
    requires WfCluster(c) && n in c.members && n in group && group <= c.members && |group| < |c.members| / 2 + 1
    requires c.nodes[n].round.PreVoteRound? ==> c.nodes[n].round.granted <= group - {n}
    ensures !CanCampaign(c.nodes[n], |Peers(c, n)|)
  {
    assert c.members == Peers(c, n) + {n};
    if c.nodes[n].round.PreVoteRound? {
      SubsetSize(c.nodes[n].round.granted + {n}, group);
    }
  }

  predicate Delivery(a: Action) {
    a.HandleVoteAt? || a.HandleAppendAt? || a.VoteReplyAt? || a.AppendReplyAt? || a.CrashInsideAt?
  }

  lemma GroupPackets(c: Cluster, a: Action, group: set<Id>, m: nat)
    requires WfCluster(c) && Enabled(c, a) && GroupBounded(c, group, m)
    requires a.n in group ==> !a.CampaignAt? && (Delivery(a) ==> Sender(a.p) in group)
    ensures forall p :: p in Apply(c, a).net && Sender(p) in group ==> TermOf(p) <= m
  {
    hide Apply, Guard, Safe, WfLog;
    Delivered(c, a);
    ActorIsMember(c, a);
    forall p | p in Apply(c, a).net && Sender(p) in group
      ensures TermOf(p) <= m
    {
      if p !in c.net {
        SentBy(c, a, p);
        SentTerm(c, a, m, p);
      }
    }
  }

  lemma ActorIsMember(c: Cluster, a: Action)
    requires WfCluster(c) && Enabled(c, a)
    ensures a.n in c.members
  {
  }

  /** The acting node, if it is of the group, keeps the bound on its term and on its round. */
  lemma GroupActor(c: Cluster, h: History, a: Action, group: set<Id>, m: nat)
    requires Inv(c, h) && WfCluster(c) && Enabled(c, a) && WfCluster(Apply(c, a)) && GroupBounded(c, group, m)
    requires a.n in group && !a.CampaignAt? && (Delivery(a) ==> Sender(a.p) in group)
    ensures a.n in Apply(c, a).nodes && Apply(c, a).nodes[a.n].term <= m
    ensures var r := Apply(c, a).nodes[a.n].round; r.PreVoteRound? ==> r.granted <= group - {a.n}
  {
    hide Inv, Apply, Safe, WfLog;
    Delivered(c, a);
    ActorIsMember(c, a);
    StepTerm(c, a, m);
    RoundStep(c, a);
    if a.VoteReplyAt? {
      PacketPart(c, h, a.p);
    }
  }

  lemma GroupStep(c: Cluster, h: History, a: Action, group: set<Id>, m: nat)
    requires Inv(c, h) && WfCluster(c) && Enabled(c, a) && WfCluster(Apply(c, a)) && GroupBounded(c, group, m)
    requires group <= c.members && |group| < |c.members| / 2 + 1
    requires a.n in group && Delivery(a) ==> Sender(a.p) in group
    ensures GroupBounded(Apply(c, a), group, m)
  {
    hide Inv, Apply, CanCampaign, Safe, WfLog;
    OthersStay(c, a);
    if a.n in group {
      NoCampaign(c, group, a.n);
      GroupActor(c, h, a, group, m);
    }
    GroupPackets(c, a, group, m);
  }

  lemma SentBy(c: Cluster, a: Action, p: Packet)
    requires WfCluster(c) && Enabled(c, a) && p in Apply(c, a).net && p !in c.net
    ensures Sender(p) == a.n
  {
    hide Splice, AdvanceCommit, UpToDate;
  }

  /**
    A group that is cut off and too small to be a majority stays in the terms it was in, however
    often its nodes try to be elected.
   */
  lemma {:induction false} CutOffGroupKeepsTerm(states: seq<Cluster>, acts: seq<Action>, i: nat, j: nat, group: set<Id>, m: nat)
    requires IsRun(states, acts) && i <= j < |states| && CutOff(acts, i, j, group)
    requires group <= states[i].members && |group| < |states[i].members| / 2 + 1 && GroupBounded(states[i], group, m)
    ensures GroupBounded(states[j], group, m)
    decreases j - i
  {
    hide IsRun, Inv, Apply, Enabled, GroupBounded, Extends;
    LastIsWf(states, acts);
    if i < j {
      CutOffGroupKeepsTerm(states, acts, i, j - 1, group, m);
      var hs := Histories(states, acts);
      StepAt(states, acts, j - 1);
      GroupStep(states[j - 1], hs[j - 1], acts[j - 1], group, m);
    }
  }
}
