/** Every step of a consensus group keeps the invariant, so every run does. */
module RaftRuns {
  import opened ByteStrings
  import opened RaftTypes
  import opened RaftHandlers
  import opened RaftCluster
  import opened RaftInvariants
  import opened RaftFrame
  import opened RaftLogs
  import opened RaftQuietSteps
  import opened RaftAppendStep
  import opened RaftVoteSteps
  import opened RaftLeaderSteps

  lemma UpdateTwice(c: Cluster, n: Id, s: NodeState, t: NodeState, sent: set<Packet>)
    ensures Update(Update(c, n, s, {}), n, t, sent) == Update(c, n, t, sent)
  {
    assert c.nodes[n := s][n := t] == c.nodes[n := t];
    assert c.net + {} == c.net;
  }

  /** Adopting a newer term, and possibly the role of a follower, is a quiet step of its own. */
  lemma TermStep(c: Cluster, h: History, n: Id, t: nat, s': NodeState)
    requires Inv(c, h) && n in c.members
    requires s' == StepDown(c.nodes[n], t) || s' == StepDown(c.nodes[n], t).(role := Follower)
    ensures Inv(Update(c, n, s', {}), h) && NodeOK(h, c.members, n, s')
  {
    hide Inv, NodeOK;
    Parts(c, h, n);
    StepDownOK(h, c.members, n, c.nodes[n], t);
    FollowerOK(h, c.members, n, StepDown(c.nodes[n], t));
    Quiet(c, h, n, s', {}, Update(c, n, s', {}));
  }

  lemma VoteReplySentOK(h: History, members: set<Id>, n: Id, p: Packet, resp: VoteResp)
    requires p.VoteRequest? && p.to == n && PacketOK(h, members, p) && (p.vote.preVote || !resp.granted)
    ensures PacketOK(h, members, VoteReply(n, p.vote, resp))
  {
  }

  lemma NotMyCandidate(h: History, members: set<Id>, n: Id, s: NodeState, p: Packet)
    requires RoleOK(h, members, n, s) && NOBODY !in members && n in members
    requires p.VoteRequest? && p.to == n && PacketOK(h, members, p)
    requires s.votedFor == NOBODY || s.votedFor == p.vote.candidate
    ensures s.role != Candidate
  {
  }

  lemma HandleVoteStep(c: Cluster, h: History, n: Id, p: Packet, leaderless: bool) returns (h': History)
    requires Inv(c, h) && Enabled(c, HandleVoteAt(n, p, leaderless))
    ensures Inv(Apply(c, HandleVoteAt(n, p, leaderless)), h') && Extends(h, h')
  {
    hide Inv, NodeOK, PacketOK, RoleOK, VoteOK, PeersOK, AckOK, CommitOK, LogOK, TermsUpTo, UpToDate, Extends;
    hide KeysOK, LeadersOK, CandidatesOK, AcksKept, VotesKept, LeadersComplete;
    Parts(c, h, n);
    PacketPart(c, h, p);
    ExtendsRefl(h);
    var s := c.nodes[n];
    var (s', resp) := HandleVote(s, p.vote, leaderless);
    var sent := {VoteReply(n, p.vote, resp)};
    if p.vote.preVote || !resp.granted {
      h' := h;
      if !p.vote.preVote {
        TermStep(c, h, n, p.vote.term, s');
      }
      VoteReplySentOK(h, c.members, n, p, resp);
      Quiet(c, h, n, s', sent, Update(c, n, s', sent));
    } else {
      var t := StepDown(s, p.vote.term);
      var c1 := Update(c, n, t, {});
      TermStep(c, h, n, p.vote.term, t);
      Parts(c1, h, n);
      NotMyCandidate(h, c.members, n, t, p);
      h' := GrantStep(c1, h, n, p, sent);
      UpdateTwice(c, n, t, s', sent);
    }
  }

  lemma HandleAppendStep(c: Cluster, h: History, n: Id, p: Packet) returns (h': History)
    requires Inv(c, h) && Enabled(c, HandleAppendAt(n, p))
    ensures Inv(Apply(c, HandleAppendAt(n, p)), h') && Extends(h, h')
  {
    hide Inv, NodeOK, PacketOK, RoleOK, VoteOK, PeersOK, AckOK, CommitOK, LogOK, TermsUpTo, Extends, Accept;
    hide KeysOK, LeadersOK, CandidatesOK, AcksKept, VotesKept, LeadersComplete, Numbered;
    Parts(c, h, n);
    PacketPart(c, h, p);
    ExtendsRefl(h);
    var s, req := c.nodes[n], p.append;
    var (s', resp) := HandleAppend(s, req);
    var sent := {AppendReply(n, req, resp)};
    if req.term < s.term {
      h' := h;
      ReplyOK(h, c.members, n, p, resp);
      Quiet(c, h, n, s', sent, Update(c, n, s', sent));
    } else {
      var t := StepDown(s, req.term).(role := Follower);
      TermStep(c, h, n, req.term, t);
      if Conflict(t.log, req) != 0 {
        h' := h;
        ReplyOK(h, c.members, n, p, resp);
        Quiet(c, h, n, s', sent, Update(c, n, s', sent));
      } else {
        h' := AcceptStep(Update(c, n, t, {}), h, n, p, sent);
        UpdateTwice(c, n, t, s', sent);
      }
    }
  }

  lemma ReplyStep(c: Cluster, h: History, a: Action)
    requires Inv(c, h) && Enabled(c, a) && (a.VoteReplyAt? || a.AppendReplyAt?)
    ensures Inv(Apply(c, a), h)
  {
    hide Inv, NodeOK, PacketOK, RoleOK, VoteOK, PeersOK, AckOK, CommitOK, LogOK, TermsUpTo, OnMatch;
    hide KeysOK, LeadersOK, CandidatesOK, AcksKept, VotesKept, LeadersComplete;
    Parts(c, h, a.n);
    var n, s := a.n, c.nodes[a.n];
    PacketPart(c, h, a.p);
    if a.VoteReplyAt? {
      var s' := OnVoteReply(s, a.p.from, a.p.vote, a.p.voteResp);
      VoteReplyOK(h, c.members, n, s, a.p);
      Quiet(c, h, n, s', {}, Update(c, n, s', {}));
    } else {
      var s' := OnAppendReply(s, Peers(c, n), a.p.from, a.p.append, a.p.appendResp);
      AppendReplyOK(h, c.members, n, s, a.p, s');
      AppendReplyFrame(s, Peers(c, n), a.p.from, a.p.append, a.p.appendResp);
      Quiet(c, h, n, s', {}, Update(c, n, s', {}));
    }
  }

  lemma AppendReplyFrame(s: NodeState, peers: set<Id>, from: Id, req: AppendReq, resp: AppendResp)
    requires WfLog(s.log)
    ensures OnAppendReply(s, peers, from, req, resp).log == s.log && OnAppendReply(s, peers, from, req, resp).term >= s.term
  {
    AdvanceFrame(RecordMatch(s, from, req.prevIndex + |req.entries|), peers);
  }

  lemma PreVoteSentOK(h: History, members: set<Id>, n: Id, s: NodeState, p: Packet)
    requires n in members && s.role != Leader && p in Ask(members - {n}, BeginPreVote(s, n).1)
    ensures PacketOK(h, members, p)
  {
  }

  lemma ReplicateSentOK(h: History, members: set<Id>, n: Id, s: NodeState, to: Id)
    requires NodeOK(h, members, n, s) && n in members && to in members - {n} && s.role == Leader && WfLog(s.log)
    requires NextFor(s, to) >= 1
    ensures PacketOK(h, members, AppendRequest(to, MakeAppend(s, n, to)))
  {
    var req := MakeAppend(s, n, to);
    assert to in s.nextIndex;
    assert AppendReqOK(h, members, req);
  }

  lemma SendStep(c: Cluster, h: History, a: Action)
    requires Inv(c, h) && Enabled(c, a) && (a.PreVoteAt? || a.ReplicateAt?)
    ensures Inv(Apply(c, a), h)
  {
    hide Inv, NodeOK, PacketOK, RoleOK, VoteOK, PeersOK, AckOK, CommitOK, LogOK, TermsUpTo;
    hide KeysOK, LeadersOK, CandidatesOK, AcksKept, VotesKept, LeadersComplete;
    Parts(c, h, a.n);
    var n, s := a.n, c.nodes[a.n];
    if a.PreVoteAt? {
      var (s', req) := BeginPreVote(s, n);
      PreVoteOK(h, c.members, n, s);
      forall p | p in Ask(Peers(c, n), req)
        ensures PacketOK(h, c.members, p)
      {
        PreVoteSentOK(h, c.members, n, s, p);
      }
      Quiet(c, h, n, s', Ask(Peers(c, n), req), Update(c, n, s', Ask(Peers(c, n), req)));
    } else {
      var sent := {AppendRequest(a.to, MakeAppend(s, n, a.to))};
      ReplicateSentOK(h, c.members, n, s, a.to);
      Quiet(c, h, n, s, sent, Update(c, n, s, sent));
    }
  }

  lemma CrashStep(c: Cluster, h: History, a: Action)
    requires Inv(c, h) && Enabled(c, a) && (a.CrashAt? || a.CrashInsideAt?)
    ensures Inv(Apply(c, a), h)
  {
    hide Inv, NodeOK, RoleOK, VoteOK, PeersOK, AckOK, CommitOK, LogOK, TermsUpTo;
    hide KeysOK, LeadersOK, CandidatesOK, AcksKept, VotesKept, LeadersComplete;
    var n := a.n;
    Parts(c, h, n);
    var t := if a.CrashAt? then 0 else if a.p.VoteRequest? then a.p.vote.term else a.p.append.term;
    var s := StepDown(c.nodes[n], t);
    StepDownOK(h, c.members, n, c.nodes[n], t);
    RestartOK(h, c.members, n, s);
    Quiet(c, h, n, Restart(s), {}, Update(c, n, Restart(s), {}));
  }

  /** Every step keeps the invariant, for some growth of the history. */
  lemma Step(c: Cluster, h: History, a: Action) returns (h': History)
    requires Inv(c, h) && Enabled(c, a)
    ensures Inv(Apply(c, a), h') && Extends(h, h')
  {
    hide Inv, Extends, Apply;
    ExtendsRefl(h);
    h' := h;
    match a
    case HandleVoteAt(n, p, leaderless) => h' := HandleVoteStep(c, h, n, p, leaderless);
    case HandleAppendAt(n, p) => h' := HandleAppendStep(c, h, n, p);
    case VoteReplyAt(_, _) => ReplyStep(c, h, a);
    case AppendReplyAt(_, _) => ReplyStep(c, h, a);
    case PreVoteAt(_) => SendStep(c, h, a);
    case CampaignAt(n) => h' := CampaignStep(c, h, n);
    case LeadAt(n) => h' := LeadStep(c, h, n);
    case ReplicateAt(_, _) => SendStep(c, h, a);
    case SubmitAt(n, command) => h' := SubmitStep(c, h, n, command);
    case CrashAt(_) => CrashStep(c, h, a);
    case CrashInsideAt(_, _) => CrashStep(c, h, a);
  }

  function NoHistory(): History {
    History(map[], map[], map[], map[])
  }

  lemma InitOK(c: Cluster)
    requires Init(c)
    ensures WfCluster(c) && Inv(c, NoHistory())
  {
  }

  /** A history for every state of the run, each growing out of the ones before. */
  lemma {:induction false} Histories(states: seq<Cluster>, acts: seq<Action>) returns (hs: seq<History>)
    requires IsRun(states, acts)
    ensures |hs| == |states|
    ensures forall i :: 0 <= i < |states| ==> Inv(states[i], hs[i])
    ensures forall i, j :: 0 <= i <= j < |states| ==> Extends(hs[i], hs[j]) && states[i].members == states[j].members
  {
    hide Inv, Extends, Apply, Enabled, Init;
    var n := |acts|;
    if n == 0 {
      InitOK(states[0]);
      ExtendsRefl(NoHistory());
      hs := [NoHistory()];
    } else {
      var before := Histories(states[..n], acts[..n - 1]);
      assert states[..n][n - 1] == states[n - 1];
      var h := Step(states[n - 1], before[n - 1], acts[n - 1]);
      ExtendsRefl(h);
      ApplyMembers(states[n - 1], acts[n - 1]);
      hs := before + [h];
      forall i | 0 <= i < n
        ensures Extends(hs[i], h) && states[i].members == states[n].members
      {
        assert states[..n][i] == states[i];
        ExtendsTrans(before[i], before[n - 1], h);
      }
      forall i, j | 0 <= i <= j < |states|
        ensures Extends(hs[i], hs[j]) && states[i].members == states[j].members
      {
        if j < n {
          assert states[..n][i] == states[i] && states[..n][j] == states[j];
        }
      }
    }
  }

  lemma ApplyMembers(c: Cluster, a: Action)
    requires WfCluster(c) && Enabled(c, a)
    ensures Apply(c, a).members == c.members
  {
  }
}
