/** What every append request and every acknowledgement brings about, read off the states of a run. */
module RaftProgress {
  import opened ByteStrings
  import opened RaftTypes
  import opened RaftHandlers
  import opened RaftCluster
  import opened RaftInvariants
  import opened RaftFrame
  import opened RaftLogs
  import opened RaftAppendStep
  import opened RaftLeaderSteps
  import opened RaftRuns
  import opened RaftSafety
  import opened RaftRestart

  // ----- append requests -----

  /** The log has an entry of that term at that position; position 0 always fits. */
  predicate FitsAt(log: seq<LogEntry>, prev: nat, term: nat) {
    prev == 0 || (prev <= |log| && log[prev - 1].term == term)
  }

  /** The entries of the request stand behind its previous index, and all that the leader had committed is committed and applied. */
  predicate Taken(s: NodeState, s': NodeState, req: AppendReq) {
    var end := req.prevIndex + |req.entries|;
    && req.prevIndex <= |s.log| && end <= |s'.log|
    && s'.log[..req.prevIndex] == s.log[..req.prevIndex] && s'.log[req.prevIndex..end] == req.entries
    && s'.commitIndex == Max(s.commitIndex, req.leaderCommit) <= |s'.log| && s'.applied == s'.log[..s'.commitIndex]
  }

  predicate Untouched(s: NodeState, s': NodeState) {
    s'.log == s.log && s'.commitIndex == s.commitIndex && s'.applied == s.applied
  }

  lemma ConflictIff(log: seq<LogEntry>, req: AppendReq)
    requires WfLog(log)
    ensures Conflict(log, req) == 0 <==> FitsAt(log, req.prevIndex, req.prevTerm)
    ensures Conflict(log, req) != 0 ==> Conflict(log, req) == if req.prevIndex > |log| then |log| + 1 else req.prevIndex
  {
  }

  lemma AcceptTakes(c: Cluster, h: History, s: NodeState, req: AppendReq)
    requires WfCluster(c) && LeadersOK(h, c.members) && LeadersComplete(c, h)
    requires LogOK(h, s.log) && CommitOK(h, c.members, s) && AppendReqOK(h, c.members, req) && SentCommitOK(h, c.members, req)
    requires WfLog(s.log) && Numbered(req.entries, req.prevIndex) && Conflict(s.log, req) == 0
    requires s.term == req.term && s.role == Follower
    ensures Taken(s, Accept(s, req), req)
  {
    hide LeadersOK, LeadersComplete, LogOK, CommittedPrefix, Splice;
    assert LeaderOK(h, c.members, req.term) by {
      LeaderPart(h, c.members, req.term);
    }
    CheckedPrefix(h, c.members, s.log, req);
    AcceptMerges(h, c.members, s, req);
    AcceptCommitsFrom(c, h, s, req);
    var v, l, end := Accept(s, req), h.leaders[req.term].log, req.prevIndex + |req.entries|;
    assert v.log[..end] == l[..end];
    assert v.log[..req.prevIndex] == v.log[..end][..req.prevIndex] == l[..req.prevIndex];
    assert v.log[req.prevIndex..end] == v.log[..end][req.prevIndex..] == l[req.prevIndex..end];
  }

  lemma LeaderPart(h: History, members: set<Id>, t: nat)
    requires LeadersOK(h, members) && t in h.leaders
    ensures LeaderOK(h, members, t)
  {
  }

  /** What handling a request leaves, read off the two states and the reply. */
  predicate Handled(s: NodeState, s': NodeState, req: AppendReq, resp: AppendResp) {
    if req.term < s.term then
      s' == s && resp == AppendResp(s.term, false, 0)
    else
      && s'.term == req.term == resp.term && s'.role == Follower
      && (if FitsAt(s.log, req.prevIndex, req.prevTerm)
          then Taken(s, s', req) && resp.success
          else Untouched(s, s') && !resp.success &&
               resp.conflictIndex == if req.prevIndex > |s.log| then |s.log| + 1 else req.prevIndex)
  }

  lemma AppendHandled(c: Cluster, h: History, n: Id, p: Packet)
    requires Inv(c, h) && Enabled(c, HandleAppendAt(n, p))
    ensures Handled(c.nodes[n], HandleAppend(c.nodes[n], p.append).0, p.append, HandleAppend(c.nodes[n], p.append).1)
  {
    hide Inv, LeadersOK, CandidatesOK, KeysOK, AcksKept, VotesKept, LeadersComplete, Conflict, FitsAt, Accept;
    hide NodeOK, LogOK, TermsUpTo, VoteOK, RoleOK, PeersOK, AckOK, Extends, CommittedPrefix, Splice, AppendReqOK, SentCommitOK;
    Parts(c, h, n);
    PacketPart(c, h, p);
    var s, req := c.nodes[n], p.append;
    ConflictIff(s.log, req);
    if req.term >= s.term {
      var t := StepDown(s, req.term).(role := Follower);
      TermStep(c, h, n, req.term, t);
      var c1 := Update(c, n, t, {});
      Parts(c1, h, n);
      if Conflict(t.log, req) == 0 {
        AcceptTakes(c1, h, t, req);
        AcceptFrame(t, req);
      }
    }
  }

  lemma AcceptFrame(s: NodeState, req: AppendReq)
    requires WfLog(s.log) && Numbered(req.entries, req.prevIndex) && Conflict(s.log, req) == 0
    ensures Accept(s, req).term == s.term && Accept(s, req).role == s.role
  {
    hide Splice;
  }

  /**
    Over every run: an append request of an older term is refused and changes nothing. Any other one makes
    the node a follower of its term, and is accepted exactly if the log has the previous entry: then the
    entries stand behind it, and what the leader had committed is committed and applied. Otherwise the reply
    names the first index that is missing or in conflict.
   */
  lemma AppendMeans(states: seq<Cluster>, acts: seq<Action>, i: nat) returns (resp: AppendResp)
    requires IsRun(states, acts) && i < |acts| && acts[i].HandleAppendAt?
    ensures |states| == |acts| + 1 && acts[i].n in states[i].nodes && acts[i].n in states[i + 1].nodes && acts[i].p.AppendRequest?
    ensures states[i + 1].net == states[i].net + {AppendReply(acts[i].n, acts[i].p.append, resp)}
    ensures Handled(states[i].nodes[acts[i].n], states[i + 1].nodes[acts[i].n], acts[i].p.append, resp)
  {
    hide IsRun, Inv, Extends, HandleAppend, Handled, WfLog, Numbered;
    StepAt(states, acts, i);
    var hs := Histories(states, acts);
    var n, p := acts[i].n, acts[i].p;
    resp := HandleAppend(states[i].nodes[n], p.append).1;
    AppendHandled(states[i], hs[i], n, p);
  }

  // ----- acknowledgements -----

  /** A majority, the leader counted in, is known to hold the log through `index`, whose entry is of the leader's term. */
  ghost predicate MajorityHolds(c: Cluster, n: Id, index: nat, q: set<Id>)
    requires n in c.nodes
  {
    var s := c.nodes[n];
    && q <= c.members - {n} && 2 * (|q| + 1) > |c.members|
    && (forall p :: p in q ==> p in s.matchIndex && s.matchIndex[p] >= index)
    && 1 <= index <= |s.log| && s.log[index - 1].term == s.term
  }

  /** Nothing that may commit is left uncommitted. */
  predicate Exhausted(s: NodeState, peers: set<Id>) {
    s.role == Leader ==> forall m :: s.commitIndex < m <= |s.log| ==> !CanCommit(s, peers, m)
  }

  lemma AdvanceExhausts(s: NodeState, peers: set<Id>)
    requires WfLog(s.log) && s.commitIndex <= |s.log|
    ensures Exhausted(AdvanceCommit(s, peers), peers)
  {
    var t := AdvanceCommit(s, peers);
    forall m | s.commitIndex < m <= |s.log|
      ensures CanCommit(t, peers, m) <==> CanCommit(s, peers, m)
    {
    }
  }

  lemma ReplyExhausts(s: NodeState, peers: set<Id>, from: Id, req: AppendReq, resp: AppendResp)
    requires WfLog(s.log) && s.commitIndex <= |s.log| && Exhausted(s, peers)
    ensures Exhausted(OnAppendReply(s, peers, from, req, resp), peers)
  {
    hide AdvanceCommit;
    if s.term == req.term && s.role == Leader && resp.term <= s.term && resp.success {
      AdvanceExhausts(RecordMatch(s, from, req.prevIndex + |req.entries|), peers);
    } else if OnAppendReply(s, peers, from, req, resp).role == Leader {
      SameLeader(s, OnAppendReply(s, peers, from, req, resp), peers);
    }
  }

  lemma SubmitExhausts(s: NodeState, peers: set<Id>, command: Str)
    requires WfLog(s.log) && s.role == Leader && s.commitIndex <= |s.log|
    ensures Exhausted(Submit(s, peers, command), peers)
  {
    hide AdvanceCommit;
    AdvanceExhausts(Appended(s, command), peers);
  }

  lemma WinExhausts(s: NodeState, peers: set<Id>)
    requires s.term > 0 && TermsUpTo(s.log, s.term - 1)
    ensures Exhausted(BecomeLeader(s, peers), peers)
  {
  }

  lemma VoteExhausts(s: NodeState, peers: set<Id>, req: VoteReq, leaderless: bool)
    requires Exhausted(s, peers)
    ensures Exhausted(HandleVote(s, req, leaderless).0, peers)
  {
    hide UpToDate;
    var t := HandleVote(s, req, leaderless).0;
    if t.role == Leader {
      SameLeader(s, t, peers);
    }
  }

  lemma VoteReplyExhausts(s: NodeState, peers: set<Id>, from: Id, req: VoteReq, resp: VoteResp)
    requires Exhausted(s, peers)
    ensures Exhausted(OnVoteReply(s, from, req, resp), peers)
  {
    var t := OnVoteReply(s, from, req, resp);
    if t.role == Leader {
      SameLeader(s, t, peers);
    }
  }

  lemma SameLeader(s: NodeState, t: NodeState, peers: set<Id>)
    requires Exhausted(s, peers) && s.role == Leader
    requires t.term == s.term && t.log == s.log && t.matchIndex == s.matchIndex && t.commitIndex == s.commitIndex
    ensures Exhausted(t, peers)
  {
    forall m | s.commitIndex < m <= |s.log|
      ensures !CanCommit(t, peers, m)
    {
      assert !CanCommit(s, peers, m);
    }
  }

  lemma AppendExhausts(s: NodeState, peers: set<Id>, req: AppendReq)
    requires WfLog(s.log) && Numbered(req.entries, req.prevIndex) && Exhausted(s, peers)
    ensures Exhausted(HandleAppend(s, req).0, peers)
  {
    hide Splice, CanCommit;
  }

  lemma NodeFacts(c: Cluster, h: History, n: Id)
    requires Inv(c, h) && n in c.members
    ensures WfCluster(c) && WfLog(c.nodes[n].log) && c.nodes[n].commitIndex <= |c.nodes[n].log|
    ensures c.nodes[n].applied == c.nodes[n].log[..c.nodes[n].commitIndex]
    ensures c.nodes[n].role == Candidate ==> c.nodes[n].term > 0 && TermsUpTo(c.nodes[n].log, c.nodes[n].term - 1)
  {
    assert NodeOK(h, c.members, n, c.nodes[n]);
  }

  lemma OwnStepExhausts(c: Cluster, h: History, a: Action)
    requires Inv(c, h) && Enabled(c, a) && a.n in c.members && Exhausted(c.nodes[a.n], Peers(c, a.n))
    ensures a.n in Apply(c, a).nodes && Exhausted(Apply(c, a).nodes[a.n], Peers(c, a.n))
  {
    hide Inv, Exhausted, HandleAppend, HandleVote, OnVoteReply, OnAppendReply, Submit, BecomeLeader, TermsUpTo, WfLog, Numbered, NextFor;
    NodeFacts(c, h, a.n);
    var s, peers := c.nodes[a.n], Peers(c, a.n);
    match a
    case HandleVoteAt(_, p, leaderless) => VoteExhausts(s, peers, p.vote, leaderless);
    case HandleAppendAt(_, p) => AppendExhausts(s, peers, p.append);
    case VoteReplyAt(_, p) => VoteReplyExhausts(s, peers, p.from, p.vote, p.voteResp);
    case AppendReplyAt(_, p) => ReplyExhausts(s, peers, p.from, p.append, p.appendResp);
    case LeadAt(_) => WinExhausts(s, peers);
    case SubmitAt(_, command) => SubmitExhausts(s, peers, command);
    case _ => NoLeaderExhausts(Apply(c, a).nodes[a.n], peers);
  }

  lemma NoLeaderExhausts(s: NodeState, peers: set<Id>)
    ensures s.role != Leader ==> Exhausted(s, peers)
  {
  }

  lemma {:induction false} LeadersExhaust(states: seq<Cluster>, acts: seq<Action>, hs: seq<History>, i: nat, n: Id)
    requires IsRun(states, acts) && |hs| == |states| && i < |states| && n in states[i].members
    requires forall k :: 0 <= k < |states| ==> Inv(states[k], hs[k])
    ensures n in states[i].nodes && Exhausted(states[i].nodes[n], Peers(states[i], n))
  {
    hide IsRun, Inv, Exhausted, Apply, Enabled;
    LastIsWf(states, acts);
    if i == 0 {
      FreshExhausts(states, acts, n);
    } else {
      StepAt(states, acts, i - 1);
      ApplyMembers(states[i - 1], acts[i - 1]);
      LeadersExhaust(states, acts, hs, i - 1, n);
      OthersStay(states[i - 1], acts[i - 1], n);
      if acts[i - 1].n == n {
        OwnStepExhausts(states[i - 1], hs[i - 1], acts[i - 1]);
      }
    }
  }

  lemma FreshExhausts(states: seq<Cluster>, acts: seq<Action>, n: Id)
    requires IsRun(states, acts) && n in states[0].members
    ensures n in states[0].nodes && Exhausted(states[0].nodes[n], Peers(states[0], n))
  {
    hide CanCommit, Apply, Enabled;
  }

  lemma HeldCanCommit(s: NodeState, members: set<Id>, n: Id, index: nat, q: set<Id>)
    requires n in members && q <= members - {n} && 2 * (|q| + 1) > |members|
    requires forall p :: p in q ==> p in s.matchIndex && s.matchIndex[p] >= index
    requires 1 <= index <= |s.log| && s.log[index - 1].term == s.term
    ensures CanCommit(s, members - {n}, index)
  {
    var peers := members - {n};
    var holders := set p | p in peers && p in s.matchIndex && s.matchIndex[p] >= index;
    assert q <= holders;
    SubsetSize(q, holders);
    assert members == peers + {n};
  }

  /**
    Over every run: whatever entry of its own term a leader knows to be on a majority of the members, itself
    included, is committed and applied by the leader.
   */
  lemma MajorityIsCommitted(states: seq<Cluster>, acts: seq<Action>, i: nat, n: Id, index: nat, q: set<Id>)
    requires IsRun(states, acts) && i < |states| && n in states[i].members && n in states[i].nodes
    requires states[i].nodes[n].role == Leader && MajorityHolds(states[i], n, index, q)
    ensures index <= states[i].nodes[n].commitIndex == |states[i].nodes[n].applied|
    ensures states[i].nodes[n].applied[index - 1] == states[i].nodes[n].log[index - 1]
  {
    hide IsRun, Inv, Extends, CanCommit;
    var hs := Histories(states, acts);
    NodeFacts(states[i], hs[i], n);
    LeadersExhaust(states, acts, hs, i, n);
    HeldCanCommit(states[i].nodes[n], states[i].members, n, index, q);
  }

  // ----- terms -----

  /** The term that a delivered packet tells its receiver of: not a pre-vote request, nor a reply to a leadership that is over. */
  function Told(s: NodeState, a: Action): nat {
    match a
    case HandleVoteAt(_, p, _) => if p.VoteRequest? && !p.vote.preVote then p.vote.term else s.term
    case HandleAppendAt(_, p) => if p.AppendRequest? then p.append.term else s.term
    case VoteReplyAt(_, p) => if p.VoteReply? then p.voteResp.term else s.term
    case AppendReplyAt(_, p) =>
      if p.AppendReply? && s.role == Leader && s.term == p.append.term then p.appendResp.term else s.term
    case _ => s.term
  }

  predicate Delivery(a: Action) {
    a.HandleVoteAt? || a.HandleAppendAt? || a.VoteReplyAt? || a.AppendReplyAt?
  }

  predicate Adopts(s: NodeState, s': NodeState, told: nat) {
    s'.term == Max(s.term, told) && (s'.term > s.term ==> s'.role == Follower)
  }

  lemma AppendAdopts(s: NodeState, req: AppendReq)
    requires WfLog(s.log) && Numbered(req.entries, req.prevIndex)
    ensures Adopts(s, HandleAppend(s, req).0, req.term)
  {
    hide Splice, WfLog, Numbered;
  }

  lemma AppendReplyAdopts(s: NodeState, peers: set<Id>, from: Id, req: AppendReq, resp: AppendResp)
    requires WfLog(s.log)
    ensures Adopts(s, OnAppendReply(s, peers, from, req, resp), if s.role == Leader && s.term == req.term then resp.term else s.term)
  {
    hide HighestCommittable, WfLog;
  }

  lemma VoteAdopts(s: NodeState, req: VoteReq, leaderless: bool)
    ensures Adopts(s, HandleVote(s, req, leaderless).0, if req.preVote then s.term else req.term)
  {
    hide UpToDate;
  }

  lemma VoteReplyAdopts(s: NodeState, from: Id, req: VoteReq, resp: VoteResp)
    ensures Adopts(s, OnVoteReply(s, from, req, resp), resp.term)
  {
  }

  lemma StepAdopts(c: Cluster, a: Action)
    requires WfCluster(c) && Enabled(c, a) && Delivery(a)
    ensures a.n in c.nodes && a.n in Apply(c, a).nodes
    ensures var s, s' := c.nodes[a.n], Apply(c, a).nodes[a.n];
            Adopts(s, s', Told(s, a))
  {
    hide HandleAppend, HandleVote, OnVoteReply, OnAppendReply, WfLog, Numbered, Adopts;
    var s := c.nodes[a.n];
    match a
    case HandleVoteAt(n, p, leaderless) => VoteAdopts(s, p.vote, leaderless);
    case HandleAppendAt(n, p) => AppendAdopts(s, p.append);
    case VoteReplyAt(n, p) => VoteReplyAdopts(s, p.from, p.vote, p.voteResp);
    case AppendReplyAt(n, p) => AppendReplyAdopts(s, Peers(c, n), p.from, p.append, p.appendResp);
  }

  /** A delivered packet raises the node to the term it tells of, if that is newer, and makes it a follower then. */
  lemma NewerTermAdopted(states: seq<Cluster>, acts: seq<Action>, i: nat)
    requires IsRun(states, acts) && i < |acts| && Delivery(acts[i])
    ensures |states| == |acts| + 1 && acts[i].n in states[i].nodes && acts[i].n in states[i + 1].nodes
    ensures var s, s' := states[i].nodes[acts[i].n], states[i + 1].nodes[acts[i].n];
            Adopts(s, s', Told(s, acts[i]))
  {
    hide IsRun, Apply, Enabled, Told;
    StepAt(states, acts, i);
    StepAdopts(states[i], acts[i]);
  }

  // ----- acknowledgements of a peer -----

  /** What a leader knows of a peer: the index it matches, and the next one to send. */
  function Matched(s: NodeState, p: Id): nat {
    if p in s.matchIndex then s.matchIndex[p] else 0
  }

  /** What a reply of the leader's own term teaches it of the peer that sent it. */
  ghost predicate Learns(s: NodeState, s': NodeState, from: Id, req: AppendReq, resp: AppendResp) {
    && s'.role == Leader && s'.term == s.term && s'.log == s.log
    && (if resp.success then
          Matched(s', from) == Max(Matched(s, from), req.prevIndex + |req.entries|) && NextFor(s', from) == Matched(s', from) + 1
        else
          && Matched(s', from) == Matched(s, from) && s'.commitIndex == s.commitIndex
          && NextFor(s', from) == if resp.conflictIndex == 0 then 1 else resp.conflictIndex)
    && forall p :: p != from ==> Matched(s', p) == Matched(s, p) && NextFor(s', p) == NextFor(s, p)
  }

  lemma ReplyTeaches(s: NodeState, peers: set<Id>, from: Id, req: AppendReq, resp: AppendResp)
    requires WfLog(s.log) && s.role == Leader && s.term == req.term && resp.term <= s.term
    ensures Learns(s, OnAppendReply(s, peers, from, req, resp), from, req, resp)
  {
    hide HighestCommittable, WfLog;
  }

  lemma StaleReply(s: NodeState, peers: set<Id>, from: Id, req: AppendReq, resp: AppendResp)
    requires WfLog(s.log) && (s.role != Leader || s.term != req.term)
    ensures OnAppendReply(s, peers, from, req, resp) == s
  {
  }

  /**
    Over every run: a reply to a request of the leader's present term raises what the leader knows of the peer,
    or backs up to the index that the peer named; it tells nothing of other peers. Any other reply is ignored,
    unless it is of a newer term.
   */
  lemma ReplyMeans(states: seq<Cluster>, acts: seq<Action>, i: nat)
    requires IsRun(states, acts) && i < |acts| && acts[i].AppendReplyAt? && acts[i].p.AppendReply?
    ensures |states| == |acts| + 1 && acts[i].n in states[i].nodes && acts[i].n in states[i + 1].nodes
    ensures var s, s', p := states[i].nodes[acts[i].n], states[i + 1].nodes[acts[i].n], acts[i].p;
            if s.role != Leader || s.term != p.append.term then s' == s
            else p.appendResp.term <= s.term ==> Learns(s, s', p.from, p.append, p.appendResp)
  {
    hide IsRun, OnAppendReply, Learns, WfLog;
    StepAt(states, acts, i);
    var c, n, p := states[i], acts[i].n, acts[i].p;
    var s := c.nodes[n];
    if s.role != Leader || s.term != p.append.term {
      StaleReply(s, Peers(c, n), p.from, p.append, p.appendResp);
    } else if p.appendResp.term <= s.term {
      ReplyTeaches(s, Peers(c, n), p.from, p.append, p.appendResp);
    }
  }
}
