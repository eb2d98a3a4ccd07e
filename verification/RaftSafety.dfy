/**
  What a consensus group promises, over every run with lost, late, repeated and reordered packets,
  crashes and restarts. The statements speak of the states of the run only.
 */
module RaftSafety {
  import opened ByteStrings
  import opened RaftTypes
  import opened RaftHandlers
  import opened RaftCluster
  import opened RaftInvariants
  import opened RaftFrame
  import opened RaftLogs
  import opened RaftAppendStep
  import opened RaftRuns

  lemma LeaderRecorded(c: Cluster, h: History, a: Id)
    requires Inv(c, h) && a in c.members && c.nodes[a].role == Leader
    ensures WfCluster(c)
    ensures c.nodes[a].term in h.leaders && h.leaders[c.nodes[a].term].id == a && h.leaders[c.nodes[a].term].log == c.nodes[a].log
  {
    assert NodeOK(h, c.members, a, c.nodes[a]);
  }

  /** Election safety: at most one node ever leads a given term. */
  lemma ElectionSafety(states: seq<Cluster>, acts: seq<Action>, i: nat, j: nat, a: Id, b: Id)
    requires IsRun(states, acts) && i < |states| && j < |states|
    requires a in states[i].members && states[i].nodes[a].role == Leader
    requires b in states[j].members && states[j].nodes[b].role == Leader
    requires states[i].nodes[a].term == states[j].nodes[b].term
    ensures a == b
  {
    hide Inv, IsRun;
    var hs := Histories(states, acts);
    LeaderRecorded(states[i], hs[i], a);
    LeaderRecorded(states[j], hs[j], b);
    var t := states[i].nodes[a].term;
    if i <= j {
      assert Grows(hs[i].leaders[t], hs[j].leaders[t], t);
    } else {
      assert Grows(hs[j].leaders[t], hs[i].leaders[t], t);
    }
  }

  lemma NodePart(c: Cluster, h: History, a: Id)
    requires Inv(c, h) && a in c.members
    ensures WfCluster(c) && LogOK(h, c.nodes[a].log) && CommitOK(h, c.members, c.nodes[a])
  {
    assert NodeOK(h, c.members, a, c.nodes[a]);
  }

  /** A log at state i is still sound at any later state of the run. */
  lemma LogAt(states: seq<Cluster>, hs: seq<History>, i: nat, j: nat, a: Id)
    requires |hs| == |states| && i <= j < |states| && a in states[i].members
    requires forall k :: 0 <= k < |states| ==> Inv(states[k], hs[k])
    requires forall k, m :: 0 <= k <= m < |states| ==> Extends(hs[k], hs[m]) && states[k].members == states[m].members
    ensures WfCluster(states[i]) && LogOK(hs[j], states[i].nodes[a].log)
    ensures CommittedPrefix(hs[j], states[j].members, states[i].nodes[a].applied, states[i].nodes[a].term)
  {
    hide Inv;
    NodePart(states[i], hs[i], a);
    var s := states[i].nodes[a];
    assert Extends(hs[i], hs[j]);
    LogGrows(hs[i], hs[j], s.log);
    PrefixGrows(hs[i], hs[j], states[i].members, s.applied, s.term, s.term);
  }

  /** Log matching: logs that agree on the term at a position are the same up to it, whenever they are read. */
  lemma LogMatching(states: seq<Cluster>, acts: seq<Action>, i: nat, j: nat, a: Id, b: Id, k: nat)
    requires IsRun(states, acts) && i < |states| && j < |states| && a in states[i].members && b in states[j].members
    requires k < |states[i].nodes[a].log| && k < |states[j].nodes[b].log|
    requires states[i].nodes[a].log[k].term == states[j].nodes[b].log[k].term
    ensures states[i].nodes[a].log[..k + 1] == states[j].nodes[b].log[..k + 1]
    ensures states[i].nodes[a].log[k].index == k + 1
  {
    hide Inv, IsRun, Extends, CommittedPrefix;
    var hs := Histories(states, acts);
    var m := |states| - 1;
    LogAt(states, hs, i, m, a);
    LogAt(states, hs, j, m, b);
    SameTermSamePrefix(hs[m], states[i].nodes[a].log, states[j].nodes[b].log, k);
    assert EntryOK(hs[m], states[i].nodes[a].log, k);
  }

  /** Two committed prefixes are prefixes of one another. */
  lemma CommittedAgree(c: Cluster, h: History, p: seq<LogEntry>, q: seq<LogEntry>, boundP: nat, boundQ: nat)
    requires WfCluster(c) && LeadersComplete(c, h)
    requires CommittedPrefix(h, c.members, p, boundP) && CommittedPrefix(h, c.members, q, boundQ)
    ensures p <= q || q <= p
  {
    if p != [] && q != [] {
      var t: nat, k: nat :| CommittedPrefixAt(h, c.members, p, boundP, t, k);
      var u: nat, l: nat :| CommittedPrefixAt(h, c.members, q, boundQ, u, l);
      if t <= u {
        assert CommittedPrefixAt(h, c.members, p, t, t, k);
        CommittedInLeader(c, h, p, t, u);
        BothPrefixes(p, q, h.leaders[u].log);
      } else {
        assert CommittedPrefixAt(h, c.members, q, u, u, l);
        CommittedInLeader(c, h, q, u, t);
        BothPrefixes(p, q, h.leaders[t].log);
      }
    }
  }

  lemma BothPrefixes<T>(p: seq<T>, q: seq<T>, l: seq<T>)
    requires p <= l && q <= l
    ensures p <= q || q <= p
  {
    if |p| <= |q| {
      assert p == l[..|p|] == q[..|p|];
    } else {
      assert q == l[..|q|] == p[..|q|];
    }
  }

  lemma CompletePart(c: Cluster, h: History)
    requires Inv(c, h)
    ensures WfCluster(c) && LeadersComplete(c, h)
  {
  }

  /**
    State-machine safety: what two nodes have applied, at any two moments of the run and across
    crashes, never disagrees; one sequence of applied entries is a prefix of the other.
   */
  lemma StateMachineSafety(states: seq<Cluster>, acts: seq<Action>, i: nat, j: nat, a: Id, b: Id)
    requires IsRun(states, acts) && i < |states| && j < |states| && a in states[i].members && b in states[j].members
    ensures states[i].nodes[a].applied <= states[j].nodes[b].applied || states[j].nodes[b].applied <= states[i].nodes[a].applied
  {
    hide Inv, IsRun, Extends, CommittedPrefix, LeadersComplete;
    var hs := Histories(states, acts);
    var m := |states| - 1;
    LogAt(states, hs, i, m, a);
    LogAt(states, hs, j, m, b);
    CompletePart(states[m], hs[m]);
    CommittedAgree(states[m], hs[m], states[i].nodes[a].applied, states[j].nodes[b].applied,
                   states[i].nodes[a].term, states[j].nodes[b].term);
  }

  /** Entries with an older term than the leader's were in its log when it was elected. */
  lemma OldEntriesStay(h: History, h': History, u: nat, p: seq<LogEntry>, t: nat, k: nat)
    requires LeadersGrow(h, h') && u in h.leaders && t < u
    requires OwnEntry(h', t, k) && Keeps(h', t, k, h'.leaders[u].log) && |p| <= k && p <= h'.leaders[t].log
    ensures p <= h.leaders[u].log
  {
    assert Grows(h.leaders[u], h'.leaders[u], u);
    assert h'.leaders[u].log[k - 1] == h'.leaders[t].log[..k][k - 1];
  }

  /**
    Leader completeness: whatever a node has committed by term T is in the log of every leader of
    every later term, whichever of the two moments comes first.
   */
  lemma LeaderCompleteness(states: seq<Cluster>, acts: seq<Action>, i: nat, j: nat, a: Id, b: Id)
    requires IsRun(states, acts) && i < |states| && j < |states| && a in states[i].members && b in states[j].members
    requires states[j].nodes[b].role == Leader && states[i].nodes[a].term < states[j].nodes[b].term
    ensures states[i].nodes[a].commitIndex <= |states[i].nodes[a].log|
    ensures states[i].nodes[a].log[..states[i].nodes[a].commitIndex] <= states[j].nodes[b].log
  {
    hide Inv, IsRun, Extends, LeadersComplete, LogOK;
    var hs := Histories(states, acts);
    var m := if i <= j then j else i;
    NodePart(states[i], hs[i], a);
    LogAt(states, hs, i, m, a);
    LeaderRecorded(states[j], hs[j], b);
    var s, u := states[i].nodes[a], states[j].nodes[b].term;
    CompletePart(states[m], hs[m]);
    ExtendsLeaders(hs[j], hs[m], u);
    if s.applied != [] {
      var t: nat, k: nat :| CommittedPrefixAt(hs[m], states[m].members, s.applied, s.term, t, k);
      CommittedKept(states[m], hs[m], t, k, u);
      OldEntriesStay(hs[j], hs[m], u, s.applied, t, k);
    }
  }

  lemma ExtendsLeaders(h: History, h': History, u: nat)
    requires Extends(h, h') && u in h.leaders
    ensures LeadersGrow(h, h') && u in h'.leaders
  {
  }

  lemma CommittedKept(c: Cluster, h: History, t: nat, k: nat, u: nat)
    requires WfCluster(c) && LeadersComplete(c, h) && Committed(h, c.members, t, k) && u in h.leaders && t < u
    ensures Keeps(h, t, k, h.leaders[u].log)
  {
    CommittedIsChoosable(c, h, t, k);
  }

  // ----- what one step does to committed entries -----

  lemma AppendKeepsCommitted(c: Cluster, h: History, n: Id, p: Packet)
    requires Inv(c, h) && Enabled(c, HandleAppendAt(n, p))
    ensures c.nodes[n].commitIndex <= |c.nodes[n].log|
    ensures var s' := HandleAppend(c.nodes[n], p.append).0;
            && c.nodes[n].commitIndex <= s'.commitIndex <= |s'.log|
            && c.nodes[n].log[..c.nodes[n].commitIndex] <= s'.log
            && c.nodes[n].applied <= s'.applied
            && (s'.commitIndex > c.nodes[n].commitIndex ==>
                  && p.append.term in h.leaders && s'.commitIndex <= p.append.prevIndex + |p.append.entries|
                  && s'.log[..s'.commitIndex] <= h.leaders[p.append.term].log)
  {
    hide Inv, LeadersOK, CandidatesOK, KeysOK, AcksKept, VotesKept, LeadersComplete, Accepts, Merged;
    hide NodeOK, LogOK, TermsUpTo, VoteOK, RoleOK, PeersOK, AckOK, Extends, CommittedPrefix, Splice;
    Parts(c, h, n);
    PacketPart(c, h, p);
    var s, req := c.nodes[n], p.append;
    if req.term >= s.term {
      var t := StepDown(s, req.term).(role := Follower);
      TermStep(c, h, n, req.term, t);
      var c1 := Update(c, n, t, {});
      Parts(c1, h, n);
      if Conflict(t.log, req) == 0 {
        AcceptCommitsFrom(c1, h, t, req);
      }
    }
  }

  lemma AcceptCommitsFrom(c: Cluster, h: History, s: NodeState, req: AppendReq)
    requires WfCluster(c) && LeadersOK(h, c.members) && LeadersComplete(c, h)
    requires LogOK(h, s.log) && CommitOK(h, c.members, s) && AppendReqOK(h, c.members, req) && SentCommitOK(h, c.members, req)
    requires WfLog(s.log) && Numbered(req.entries, req.prevIndex) && Conflict(s.log, req) == 0
    requires s.term == req.term && s.role == Follower
    ensures var v := Accept(s, req);
            && s.commitIndex <= v.commitIndex <= |v.log| && s.log[..s.commitIndex] <= v.log
            && CommitOK(h, c.members, v)
            && (v.commitIndex > s.commitIndex ==>
                  && v.commitIndex <= req.prevIndex + |req.entries|
                  && v.log[..v.commitIndex] <= h.leaders[req.term].log)
  {
    hide LeadersOK, LeadersComplete, Merged, LogOK, CommittedPrefix;
    AcceptMerges(h, c.members, s, req);
    AcceptCommits(c, h, s, req, s.(log := Splice(s.log, req.prevIndex, req.entries)), Accept(s, req));
  }

  lemma AdvanceKeeps(s: NodeState, peers: set<Id>)
    requires WfLog(s.log)
    ensures AdvanceCommit(s, peers).log == s.log && s.commitIndex <= AdvanceCommit(s, peers).commitIndex
    ensures s.applied <= AdvanceCommit(s, peers).applied
  {
  }

  predicate KeepsCommitted(s: NodeState, s': NodeState) {
    && s.commitIndex <= |s.log| && s.commitIndex <= s'.commitIndex <= |s'.log|
    && s.log[..s.commitIndex] <= s'.log && s.applied <= s'.applied
  }

  lemma ReplyKeepsCommitted(s: NodeState, peers: set<Id>, from: Id, req: AppendReq, resp: AppendResp)
    requires WfLog(s.log) && s.commitIndex <= |s.log|
    ensures KeepsCommitted(s, OnAppendReply(s, peers, from, req, resp))
  {
    hide AdvanceCommit;
    AdvanceKeeps(RecordMatch(s, from, req.prevIndex + |req.entries|), peers);
    AdvanceBound(RecordMatch(s, from, req.prevIndex + |req.entries|), peers);
  }

  lemma SubmitKeepsCommitted(s: NodeState, peers: set<Id>, command: Str)
    requires WfLog(s.log) && s.commitIndex <= |s.log| && s.role == Leader
    ensures KeepsCommitted(s, Submit(s, peers, command))
  {
    hide AdvanceCommit;
    AdvanceKeeps(Appended(s, command), peers);
    AdvanceBound(Appended(s, command), peers);
  }

  lemma LocalKeepsCommitted(c: Cluster, a: Action)
    requires WfCluster(c) && Enabled(c, a) && c.nodes[a.n].commitIndex <= |c.nodes[a.n].log|
    requires !a.HandleAppendAt? && !a.CrashAt? && !a.CrashInsideAt?
    ensures KeepsCommitted(c.nodes[a.n], Apply(c, a).nodes[a.n])
  {
    hide OnAppendReply, Submit, UpToDate;
    var s := c.nodes[a.n];
    match a
    case AppendReplyAt(n, p) => ReplyKeepsCommitted(s, Peers(c, n), p.from, p.append, p.appendResp);
    case SubmitAt(n, command) => SubmitKeepsCommitted(s, Peers(c, n), command);
    case _ =>
  }

  lemma AdvanceBound(s: NodeState, peers: set<Id>)
    requires WfLog(s.log) && s.commitIndex <= |s.log|
    ensures AdvanceCommit(s, peers).commitIndex <= |s.log|
  {
  }

  lemma StepAt(states: seq<Cluster>, acts: seq<Action>, i: nat)
    requires IsRun(states, acts) && i < |acts|
    ensures |states| == |acts| + 1 && WfCluster(states[i]) && WfCluster(states[i + 1])
    ensures Enabled(states[i], acts[i]) && states[i + 1] == Apply(states[i], acts[i])
  {
  }

  /**
    Nothing committed is ever dropped or replaced, and nothing applied is applied anew: short of a
    crash of the node itself, its committed and its applied entries only grow.
   */
  lemma CommittedIsKept(states: seq<Cluster>, acts: seq<Action>, i: nat, n: Id)
    requires IsRun(states, acts) && i < |acts| && n in states[i].members
    requires !(acts[i].n == n && (acts[i].CrashAt? || acts[i].CrashInsideAt?))
    ensures n in states[i + 1].members && KeepsCommitted(states[i].nodes[n], states[i + 1].nodes[n])
  {
    hide Inv, IsRun, Extends, CommittedPrefix, LogOK, KeepsCommitted;
    StepAt(states, acts, i);
    var hs := Histories(states, acts);
    var c, a := states[i], acts[i];
    NodePart(c, hs[i], n);
    if a.n == n {
      if a.HandleAppendAt? {
        AppendKeepsCommitted(c, hs[i], n, a.p);
        IsKept(c.nodes[n], HandleAppend(c.nodes[n], a.p.append).0);
      } else {
        LocalKeepsCommitted(c, a);
      }
    } else {
      IsKept(c.nodes[n], c.nodes[n]);
    }
  }

  lemma IsKept(s: NodeState, s': NodeState)
    requires s.commitIndex <= |s.log| && s.commitIndex <= s'.commitIndex <= |s'.log|
    requires s.log[..s.commitIndex] <= s'.log && s.applied <= s'.applied
    ensures KeepsCommitted(s, s')
  {
  }

  lemma NewAppend(c: Cluster, a: Action, p: Packet)
    requires WfCluster(c) && Enabled(c, a) && p in Apply(c, a).net && p !in c.net && p.AppendRequest?
    ensures a.ReplicateAt? && p.to == a.to && p.append == MakeAppend(c.nodes[a.n], a.n, a.to)
  {
    hide Splice, AdvanceCommit, UpToDate, MakeAppend;
  }

  lemma FreshNet(states: seq<Cluster>, acts: seq<Action>)
    requires IsRun(states, acts)
    ensures |states| == |acts| + 1 && states[0].net == {}
  {
  }

  /** Where an append request in the network comes from. */
  lemma {:induction false} AppendOrigin(states: seq<Cluster>, acts: seq<Action>, i: nat, p: Packet) returns (q: nat)
    requires IsRun(states, acts) && i < |states| && p in states[i].net && p.AppendRequest?
    ensures q < i && acts[q].ReplicateAt? && acts[q].n in states[q].members && p.to in Peers(states[q], acts[q].n)
    ensures var s := states[q].nodes[acts[q].n];
            s.role == Leader && NextFor(s, p.to) >= 1 && p.append == MakeAppend(s, acts[q].n, p.to)
  {
    hide IsRun, Apply, MakeAppend;
    FreshNet(states, acts);
    StepAt(states, acts, i - 1);
    if p in states[i - 1].net {
      q := AppendOrigin(states, acts, i - 1, p);
    } else {
      NewAppend(states[i - 1], acts[i - 1], p);
      q := i - 1;
    }
  }

  /** A leader always ships its log through the last entry. */
  lemma ShipsToTheEnd(c: Cluster, h: History, n: Id, to: Id)
    requires Inv(c, h) && n in c.members && to in c.members - {n} && c.nodes[n].role == Leader
    ensures 1 <= NextFor(c.nodes[n], to) <= |c.nodes[n].log| + 1
    ensures var req := MakeAppend(c.nodes[n], n, to);
            && req.term == c.nodes[n].term && req.leader == n
            && req.prevIndex <= |c.nodes[n].log| && req.entries == c.nodes[n].log[req.prevIndex..]
            && req.prevTerm == TermAt(c.nodes[n].log, req.prevIndex)
  {
    hide Inv, LeadersOK, CandidatesOK, KeysOK, AcksKept, VotesKept, LeadersComplete;
    hide NodeOK, LogOK, TermsUpTo, VoteOK, RoleOK, AckOK, CommitOK;
    Parts(c, h, n);
    assert to in c.nodes[n].nextIndex;
  }

  /** Log matching for a log and a request in flight, whenever either is looked at. */
  lemma RequestMatching(states: seq<Cluster>, acts: seq<Action>, i: nat, j: nat, a: Id, p: Packet, m: nat)
    requires IsRun(states, acts) && i < |states| && j < |states| && a in states[i].members
    requires p in states[j].net && p.AppendRequest? && m < |p.append.entries|
    requires p.append.prevIndex + m < |states[i].nodes[a].log|
    requires states[i].nodes[a].log[p.append.prevIndex + m].term == p.append.entries[m].term
    ensures p.append.entries[m].index == p.append.prevIndex + m + 1
    ensures states[i].nodes[a].log[p.append.prevIndex..p.append.prevIndex + m + 1] == p.append.entries[..m + 1]
    ensures p.append.prevTerm == TermAt(states[i].nodes[a].log, p.append.prevIndex)
  {
    hide Inv, IsRun, Extends, MakeAppend, LogOK, CommitOK, WfCluster, TermAt, NodeOK, RoleOK, AckOK, PeersOK;
    LastIsWf(states, acts);
    var hs := Histories(states, acts);
    var q := AppendOrigin(states, acts, j, p);
    NodePart(states[i], hs[i], a);
    NodePart(states[q], hs[q], acts[q].n);
    ShipsToTheEnd(states[q], hs[q], acts[q].n, p.to);
    LogMatching(states, acts, i, q, a, acts[q].n, p.append.prevIndex + m);
    SlicesAgree(states[i].nodes[a].log, states[q].nodes[acts[q].n].log, p.append.prevIndex, m);
  }

  lemma SlicesAgree(f: seq<LogEntry>, g: seq<LogEntry>, prev: nat, m: nat)
    requires prev + m < |f| && prev + m < |g| && f[..prev + m + 1] == g[..prev + m + 1]
    ensures f[prev..prev + m + 1] == g[prev..][..m + 1] && TermAt(f, prev) == TermAt(g, prev) && g[prev..][m] == f[prev + m]
  {
    assert f[prev..prev + m + 1] == f[..prev + m + 1][prev..];
    assert g[prev..prev + m + 1] == g[..prev + m + 1][prev..];
    if prev > 0 {
      assert f[..prev + m + 1][prev - 1] == g[..prev + m + 1][prev - 1];
    }
    assert f[..prev + m + 1][prev + m] == g[..prev + m + 1][prev + m];
  }

  /**
    Whatever a follower newly commits on an append request is, entry for entry, in the log that the
    sender had as leader when it sent the request.
   */
  lemma NewCommitsAreSenders(states: seq<Cluster>, acts: seq<Action>, i: nat) returns (q: nat)
    requires IsRun(states, acts) && i < |acts| && acts[i].HandleAppendAt?
    requires states[i + 1].nodes[acts[i].n].commitIndex > states[i].nodes[acts[i].n].commitIndex
    ensures q < i && acts[q].ReplicateAt? && states[q].nodes[acts[q].n].role == Leader
    ensures acts[q].n == acts[i].p.append.leader && states[q].nodes[acts[q].n].term == acts[i].p.append.term
    ensures states[i + 1].nodes[acts[i].n].commitIndex <= |states[i + 1].nodes[acts[i].n].log|
    ensures states[i + 1].nodes[acts[i].n].log[..states[i + 1].nodes[acts[i].n].commitIndex] <= states[q].nodes[acts[q].n].log
  {
    hide Inv, IsRun, Extends, HandleAppend, MakeAppend;
    StepAt(states, acts, i);
    var hs := Histories(states, acts);
    var n, p := acts[i].n, acts[i].p;
    q := AppendOrigin(states, acts, i, p);
    AppendKeepsCommitted(states[i], hs[i], n, p);
    ShipsToTheEnd(states[q], hs[q], acts[q].n, p.to);
    LeaderRecorded(states[q], hs[q], acts[q].n);
    ExtendsLeaders(hs[q], hs[i], p.append.term);
    assert Grows(hs[q].leaders[p.append.term], hs[i].leaders[p.append.term], p.append.term);
  }

  // ----- requests are well formed, so no step is stuck -----

  lemma ApplyWf(c: Cluster, h: History, a: Action)
    requires Inv(c, h) && Enabled(c, a)
    ensures WfCluster(Apply(c, a))
  {
    hide Extends, Apply;
    var h' := Step(c, h, a);
  }

  lemma GuardIsSafe(c: Cluster, h: History, a: Action)
    requires Inv(c, h) && Guard(c, a)
    ensures Safe(c, a)
  {
    match a
    case HandleAppendAt(n, p) =>
      assert PacketOK(h, c.members, p) && LeaderOK(h, c.members, p.append.term);
      LogOKIsWf(h, h.leaders[p.append.term].log);
      SentNumbered(h, c.members, p.append);
    case ReplicateAt(n, to) =>
      assert NodeOK(h, c.members, n, c.nodes[n]);
    case _ =>
  }

  lemma ExtendRun(states: seq<Cluster>, acts: seq<Action>, a: Action)
    requires IsRun(states, acts) && Enabled(states[|acts|], a) && WfCluster(Apply(states[|acts|], a))
    ensures IsRun(states + [Apply(states[|acts|], a)], acts + [a])
  {
    hide Apply, Enabled, WfCluster, Init;
  }

  /** Whenever the source's own test passes, the step is defined and the run goes on. */
  lemma RunGoesOn(states: seq<Cluster>, acts: seq<Action>, a: Action)
    requires IsRun(states, acts) && Guard(states[|acts|], a)
    ensures Enabled(states[|acts|], a) && IsRun(states + [Apply(states[|acts|], a)], acts + [a])
  {
    hide Inv, Apply, Guard, Safe, IsRun, Extends;
    var hs := Histories(states, acts);
    LastIsWf(states, acts);
    GuardIsSafe(states[|acts|], hs[|acts|], a);
    ApplyWf(states[|acts|], hs[|acts|], a);
    ExtendRun(states, acts, a);
  }

  lemma LastIsWf(states: seq<Cluster>, acts: seq<Action>)
    requires IsRun(states, acts)
    ensures |states| == |acts| + 1 && WfCluster(states[|acts|])
  {
  }

  // ----- proposals -----

  /** The entry that a proposal at step i stamps. */
  function Proposed(states: seq<Cluster>, acts: seq<Action>, i: nat): LogEntry
    requires i < |acts| && i < |states| && acts[i].SubmitAt? && acts[i].n in states[i].nodes
  {
    var s := states[i].nodes[acts[i].n];
    LogEntry(s.term, LastIndex(s.log) + 1, acts[i].command)
  }

  lemma ProposedIsLogged(states: seq<Cluster>, acts: seq<Action>, i: nat)
    requires IsRun(states, acts) && i < |acts| && acts[i].SubmitAt?
    ensures acts[i].n in states[i].nodes && acts[i].n in states[i + 1].members
    ensures var e := Proposed(states, acts, i); var log := states[i + 1].nodes[acts[i].n].log;
            |log| == e.index && log[e.index - 1] == e
  {
    hide IsRun, AdvanceCommit;
    StepAt(states, acts, i);
    AdvanceKeeps(Appended(states[i].nodes[acts[i].n], acts[i].command), Peers(states[i], acts[i].n));
  }

  /**
    A proposal that WaitApplied acknowledges, for the index and the term that Propose stamped, is the
    entry applied at that index on this node and on every node that ever applies that index.
   */
  lemma AcknowledgedProposal(states: seq<Cluster>, acts: seq<Action>, i: nat, j: nat, k: nat, b: Id)
    requires IsRun(states, acts) && i < |acts| && i < j < |states| && k < |states|
    requires acts[i].SubmitAt? && acts[i].n in states[j].members && b in states[k].members
    requires Look(states[j].nodes[acts[i].n], Proposed(states, acts, i).index, Proposed(states, acts, i).term) == Applied
    ensures var e := Proposed(states, acts, i);
            && states[j].nodes[acts[i].n].applied[e.index - 1] == e
            && (|states[k].nodes[b].applied| >= e.index ==> states[k].nodes[b].applied[e.index - 1] == e)
  {
    hide Inv, IsRun, Extends, CommittedPrefix, LogOK;
    var hs := Histories(states, acts);
    ProposedIsLogged(states, acts, i);
    var n, e := acts[i].n, Proposed(states, acts, i);
    NodePart(states[j], hs[j], n);
    LogMatching(states, acts, i + 1, j, n, n, e.index - 1);
    StateMachineSafety(states, acts, j, k, n, b);
  }

  lemma AllWf(states: seq<Cluster>, acts: seq<Action>)
    requires IsRun(states, acts)
    ensures forall i :: 0 <= i < |states| ==> WfCluster(states[i])
  {
    hide Apply, Enabled;
  }

  /**
    If WaitApplied says Ok for some term, the entry applied at the proposed index is the proposed one exactly
    if that term is the stamped one.
   */
  lemma AppliedIffStamped(states: seq<Cluster>, acts: seq<Action>, i: nat, j: nat, term: nat)
    requires IsRun(states, acts) && i < |acts| && i < j < |states|
    requires acts[i].SubmitAt? && acts[i].n in states[j].members
    requires Look(states[j].nodes[acts[i].n], Proposed(states, acts, i).index, term) == Applied
    ensures var e := Proposed(states, acts, i);
            states[j].nodes[acts[i].n].applied[e.index - 1] == e <==> term == e.term
  {
    hide Inv, IsRun, Extends, CommittedPrefix, LogOK;
    var hs := Histories(states, acts);
    ProposedIsLogged(states, acts, i);
    var n, e := acts[i].n, Proposed(states, acts, i);
    NodePart(states[j], hs[j], n);
    if term == e.term {
      AcknowledgedProposal(states, acts, i, j, j, n);
    }
  }

  /**
    A caller reads the node's term in one lock section, at state h, and proposes in another, at step i. If
    WaitApplied then says Ok for that term, the command applied at the proposed index is the caller's
    exactly if the node's term was the same at both moments.
   */
  lemma AcknowledgedIffStamped(states: seq<Cluster>, acts: seq<Action>, h: nat, i: nat, j: nat)
    requires IsRun(states, acts) && h <= i < |acts| && i < j < |states|
    requires acts[i].SubmitAt? && acts[i].n in states[h].members && acts[i].n in states[j].members
    requires Look(states[j].nodes[acts[i].n], Proposed(states, acts, i).index, states[h].nodes[acts[i].n].term) == Applied
    ensures var n, e := acts[i].n, Proposed(states, acts, i);
            && n in states[i].members
            && (states[j].nodes[n].applied[e.index - 1] == e <==> states[h].nodes[n].term == states[i].nodes[n].term)
  {
    hide IsRun, Look;
    AllWf(states, acts);
    StepAt(states, acts, i);
    AppliedIffStamped(states, acts, i, j, states[h].nodes[acts[i].n].term);
  }
}
