/** A leader and one peer that exchange append requests without interruption. */
module RaftCatchUp {
  import opened ByteStrings
  import opened RaftTypes
  import opened RaftHandlers
  import opened RaftCluster
  import opened RaftInvariants
  import opened RaftFrame
  import opened RaftLogs
  import opened RaftRuns
  import opened RaftSafety
  import opened RaftAppendStep

  datatype Pair = Pair(leader: NodeState, peer: NodeState)

  predicate Ready(x: Pair, p: Id) {
    && x.leader.role == Leader && WfLog(x.leader.log) && WfLog(x.peer.log)
    && x.peer.term <= x.leader.term
    && 1 <= NextFor(x.leader, p) <= |x.leader.log| + 1
    && (p in x.leader.matchIndex ==> x.leader.matchIndex[p] <= |x.leader.log|)
  }

  lemma RequestShape(s: NodeState, me: Id, p: Id)
    requires WfLog(s.log) && 1 <= NextFor(s, p) <= |s.log| + 1
    ensures var req := MakeAppend(s, me, p);
            && req.prevIndex == NextFor(s, p) - 1 && req.entries == s.log[req.prevIndex..]
            && Numbered(req.entries, req.prevIndex) && req.prevTerm == TermAt(s.log, req.prevIndex) && req.term == s.term
  {
  }

  /** One delivered round: request, handling, reply. */
  function Exchange(x: Pair, me: Id, peers: set<Id>, p: Id): Pair
    requires Ready(x, p)
  {
    RequestShape(x.leader, me, p);
    var req := MakeAppend(x.leader, me, p);
    var (f, resp) := HandleAppend(x.peer, req);
    Pair(OnAppendReply(x.leader, peers, p, req, resp), f)
  }

  /** The peer refuses below next_index, or ends up with the leader's whole log. */
  lemma PeerSide(f: NodeState, l: seq<LogEntry>, req: AppendReq)
    requires WfLog(f.log) && WfLog(l) && Matching(f.log, l) && f.term <= req.term && Numbered(req.entries, req.prevIndex)
    requires req.prevIndex <= |l| && req.entries == l[req.prevIndex..] && req.prevTerm == TermAt(l, req.prevIndex)
    ensures var (f', resp) := HandleAppend(f, req);
            && f'.term == resp.term == req.term && WfLog(f'.log)
            && (if resp.success then f'.log == (if l <= f.log then f.log else l)
                else f'.log == f.log && !(l <= f.log) && 1 <= resp.conflictIndex <= req.prevIndex)
  {
    hide Splice, Matching, Conflict;
    if Conflict(f.log, req) == 0 {
      PeerMerges(f.log, l, req);
    } else {
      RefusalMeans(f.log, l, req);
    }
  }

  lemma RefusalMeans(f: seq<LogEntry>, l: seq<LogEntry>, req: AppendReq)
    requires WfLog(f) && req.prevIndex <= |l| && req.prevTerm == TermAt(l, req.prevIndex)
    requires Conflict(f, req) != 0
    ensures 1 <= Conflict(f, req) <= req.prevIndex && !(l <= f)
  {
  }

  lemma PeerMerges(f: seq<LogEntry>, l: seq<LogEntry>, req: AppendReq)
    requires WfLog(f) && WfLog(l) && Matching(f, l) && Numbered(req.entries, req.prevIndex)
    requires req.prevIndex <= |l| && req.entries == l[req.prevIndex..] && req.prevTerm == TermAt(l, req.prevIndex)
    requires Conflict(f, req) == 0
    ensures req.prevIndex <= |f| && Splice(f, req.prevIndex, req.entries) == if l <= f then f else l
  {
    hide Splice, Matching, Numbered;
    var prev := req.prevIndex;
    SamePrefix(f, l, req);
    SpliceMeaning(f, l, prev, |l|);
    assert l[..|l|] == l && l[prev..|l|] == l[prev..];
  }

  lemma SamePrefix(f: seq<LogEntry>, l: seq<LogEntry>, req: AppendReq)
    requires WfLog(f) && Matching(f, l) && Conflict(f, req) == 0
    requires req.prevIndex <= |l| && req.prevTerm == TermAt(l, req.prevIndex)
    ensures req.prevIndex <= |f| && f[..req.prevIndex] == l[..req.prevIndex]
  {
    var prev := req.prevIndex;
    if prev > 0 {
      assert f[prev - 1].term == l[prev - 1].term;
    }
  }

  lemma LeaderSide(s: NodeState, peers: set<Id>, p: Id, req: AppendReq, resp: AppendResp)
    requires s.role == Leader && WfLog(s.log) && req.term == s.term == resp.term
    requires req.prevIndex + |req.entries| == |s.log|
    requires p in s.matchIndex ==> s.matchIndex[p] <= |s.log|
    requires !resp.success ==> 1 <= resp.conflictIndex <= req.prevIndex
    ensures var s' := OnAppendReply(s, peers, p, req, resp);
            && s'.log == s.log && s'.role == Leader && s'.term == s.term
            && (p in s'.matchIndex ==> s'.matchIndex[p] <= |s.log|)
            && NextFor(s', p) == if resp.success then |s.log| + 1 else resp.conflictIndex
  {
    hide HighestCommittable;
  }

  /** A rejected round lowers next_index, but not below 1; an accepted round completes the peer's log. */
  lemma OneRound(x: Pair, me: Id, peers: set<Id>, p: Id)
    requires Ready(x, p) && Matching(x.peer.log, x.leader.log)
    ensures var y := Exchange(x, me, peers, p);
            && Ready(y, p) && Matching(y.peer.log, y.leader.log) && y.leader.log == x.leader.log
            && (if y.peer.log == x.peer.log && !(x.leader.log <= x.peer.log)
                then 1 <= NextFor(y.leader, p) < NextFor(x.leader, p)
                else x.leader.log <= y.peer.log)
  {
    hide HandleAppend, OnAppendReply, MakeAppend, WfLog;
    var req := MakeAppend(x.leader, me, p);
    RequestShape(x.leader, me, p);
    PeerSide(x.peer, x.leader.log, req);
    LeaderSide(x.leader, peers, p, req, HandleAppend(x.peer, req).1);
  }

  function Rounds(x: Pair, me: Id, peers: set<Id>, p: Id, k: nat): Pair
    requires Ready(x, p) && Matching(x.peer.log, x.leader.log)
    decreases k
  {
    OneRound(x, me, peers, p);
    if k == 0 then x else Rounds(Exchange(x, me, peers, p), me, peers, p, k - 1)
  }

  /** After as many rounds as next_index says, the leader's log is a prefix of the peer's, and stays one. */
  lemma {:induction false} CatchesUp(x: Pair, me: Id, peers: set<Id>, p: Id, k: nat)
    requires Ready(x, p) && Matching(x.peer.log, x.leader.log)
    requires k >= NextFor(x.leader, p) || x.leader.log <= x.peer.log
    ensures Rounds(x, me, peers, p, k).leader.log == x.leader.log <= Rounds(x, me, peers, p, k).peer.log
    decreases k
  {
    hide Exchange, Matching;
    if k > 0 {
      OneRound(x, me, peers, p);
      CatchesUp(Exchange(x, me, peers, p), me, peers, p, k - 1);
    }
  }

  // ----- commits -----

  /** What the peer applied is what it committed, and the leader has it. */
  predicate Committing(x: Pair) {
    && x.leader.commitIndex <= |x.leader.log| && x.peer.commitIndex <= |x.peer.log|
    && x.peer.applied == x.peer.log[..x.peer.commitIndex] && x.peer.applied <= x.leader.log
  }

  lemma PeerCommits(f: NodeState, l: seq<LogEntry>, req: AppendReq)
    requires WfLog(f.log) && WfLog(l) && Matching(f.log, l) && f.term <= req.term && Numbered(req.entries, req.prevIndex)
    requires req.prevIndex <= |l| && req.entries == l[req.prevIndex..] && req.prevTerm == TermAt(l, req.prevIndex)
    requires req.leaderCommit <= |l| && f.commitIndex <= |f.log| && f.applied == f.log[..f.commitIndex] && f.applied <= l
    ensures var f' := HandleAppend(f, req).0;
            && f.commitIndex <= f'.commitIndex <= |f'.log| && f'.applied == f'.log[..f'.commitIndex] && f'.applied <= l
            && (l <= f'.log ==> f'.commitIndex >= req.leaderCommit)
  {
    hide Splice, Matching, Conflict, WfLog, Numbered, ApplyCommitted;
    if Conflict(f.log, req) == 0 {
      PeerMerges(f.log, l, req);
      var t := StepDown(f, req.term).(role := Follower, log := Splice(f.log, req.prevIndex, req.entries));
      LastIsEnd(t.log);
      assert t.log[..t.commitIndex] == t.applied;
      if req.leaderCommit > t.commitIndex {
        CommitsUpTo(t, l, req.leaderCommit);
      }
    } else {
      RefusalMeans(f.log, l, req);
    }
  }

  lemma CommitsUpTo(t: NodeState, l: seq<LogEntry>, upTo: nat)
    requires l <= t.log && t.commitIndex <= |t.log| && t.applied == t.log[..t.commitIndex] && t.applied <= l && t.commitIndex < upTo <= |l|
    ensures var v := ApplyCommitted(t.(commitIndex := upTo));
            v.commitIndex == upTo && v.log == t.log && v.applied == t.log[..upTo] && v.applied <= l
  {
  }

  lemma LastIsEnd(log: seq<LogEntry>)
    requires WfLog(log)
    ensures LastIndex(log) == |log|
  {
  }

  lemma LeaderCommitGrows(s: NodeState, peers: set<Id>, p: Id, req: AppendReq, resp: AppendResp)
    requires WfLog(s.log) && s.commitIndex <= |s.log|
    ensures s.commitIndex <= OnAppendReply(s, peers, p, req, resp).commitIndex <= |s.log|
  {
  }

  lemma RoundCommits(x: Pair, me: Id, peers: set<Id>, p: Id)
    requires Ready(x, p) && Matching(x.peer.log, x.leader.log) && Committing(x)
    ensures var y := Exchange(x, me, peers, p);
            && y.leader.log == x.leader.log && Committing(y)
            && y.leader.commitIndex >= x.leader.commitIndex && y.peer.commitIndex >= x.peer.commitIndex
            && (x.leader.log <= y.peer.log ==> y.peer.commitIndex >= x.leader.commitIndex)
  {
    hide HandleAppend, OnAppendReply, WfLog, Matching;
    var req := MakeAppend(x.leader, me, p);
    RequestShape(x.leader, me, p);
    OneRound(x, me, peers, p);
    PeerCommits(x.peer, x.leader.log, req);
    LeaderCommitGrows(x.leader, peers, p, req, HandleAppend(x.peer, req).1);
  }

  /** Within the same rounds, the peer commits and applies whatever the leader had committed before them. */
  lemma {:induction false} CommitsReach(x: Pair, me: Id, peers: set<Id>, p: Id, k: nat, reach: nat)
    requires Ready(x, p) && Matching(x.peer.log, x.leader.log) && Committing(x) && reach <= x.leader.commitIndex
    requires k >= NextFor(x.leader, p) || x.peer.commitIndex >= reach
    ensures Committing(Rounds(x, me, peers, p, k)) && Rounds(x, me, peers, p, k).peer.commitIndex >= reach
    decreases k
  {
    hide Exchange, Matching, Committing;
    if k > 0 {
      OneRound(x, me, peers, p);
      RoundCommits(x, me, peers, p);
      CommitsReach(Exchange(x, me, peers, p), me, peers, p, k - 1, reach);
    }
  }

  lemma PairCommits(c: Cluster, h: History, n: Id, p: Id)
    requires Inv(c, h) && n in c.members && p in c.members && c.nodes[n].role == Leader && c.nodes[p].term <= c.nodes[n].term
    ensures Committing(Pair(c.nodes[n], c.nodes[p]))
  {
    hide Inv, LeadersOK, CandidatesOK, KeysOK, AcksKept, VotesKept, LeadersComplete;
    hide NodeOK, LogOK, TermsUpTo, VoteOK, PeersOK, AckOK, CommittedPrefix;
    Parts(c, h, p);
    Parts(c, h, n);
    CommittedInLeader(c, h, c.nodes[p].applied, c.nodes[p].term, c.nodes[n].term);
  }

  lemma MatchBound(c: Cluster, h: History, n: Id, p: Id)
    requires Inv(c, h) && n in c.members && p in c.members - {n} && c.nodes[n].role == Leader
    ensures p in c.nodes[n].matchIndex && c.nodes[n].matchIndex[p] <= |c.nodes[n].log|
  {
    hide LeadersOK, CandidatesOK, KeysOK, AcksKept, VotesKept, LeadersComplete;
    hide LogOK, TermsUpTo, VoteOK, RoleOK, AckOK, CommitOK, PacketOK;
    assert NodeOK(h, c.members, n, c.nodes[n]);
  }

  /**
    In every reachable state, a peer that is not ahead of the leader's term catches up within next_index
    delivered rounds: it has the leader's log, and has applied all that the leader had applied.
   */
  lemma FollowerCatchesUp(states: seq<Cluster>, acts: seq<Action>, i: nat, n: Id, p: Id, k: nat)
    requires IsRun(states, acts) && i < |states| && n in states[i].members && p in Peers(states[i], n)
    requires states[i].nodes[n].role == Leader && states[i].nodes[p].term <= states[i].nodes[n].term
    requires k >= NextFor(states[i].nodes[n], p)
    ensures var x := Pair(states[i].nodes[n], states[i].nodes[p]);
            && Ready(x, p) && Matching(x.peer.log, x.leader.log)
            && var y := Rounds(x, n, Peers(states[i], n), p, k);
               && x.leader.log <= y.peer.log
               && x.leader.commitIndex <= y.peer.commitIndex <= |y.peer.log| && y.peer.applied == y.peer.log[..y.peer.commitIndex]
               && x.leader.applied <= y.peer.applied
  {
    hide IsRun, Inv, Extends, LogOK, Matching, Rounds, CommittedPrefix;
    var hs := Histories(states, acts);
    NodePart(states[i], hs[i], n);
    NodePart(states[i], hs[i], p);
    ShipsToTheEnd(states[i], hs[i], n, p);
    MatchBound(states[i], hs[i], n, p);
    LogsMatch(hs[i], states[i].nodes[p].log, states[i].nodes[n].log);
    PairCommits(states[i], hs[i], n, p);
    var x, peers := Pair(states[i].nodes[n], states[i].nodes[p]), Peers(states[i], n);
    CatchesUp(x, n, peers, p, k);
    CommitsReach(x, n, peers, p, k, x.leader.commitIndex);
    assert x.leader.applied == x.leader.log[..x.leader.commitIndex] == Rounds(x, n, peers, p, k).peer.log[..x.leader.commitIndex];
  }
}
