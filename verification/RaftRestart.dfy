/** What a crash costs a consensus node: it leads again only in a newer term. */
module RaftRestart {
  import opened ByteStrings
  import opened RaftTypes
  import opened RaftHandlers
  import opened RaftCluster
  import opened RaftRuns
  import opened RaftSafety

  /** Only a campaign makes a follower anything else, and it raises the term. */
  predicate StaysOrRises(s: NodeState, s': NodeState) {
    s'.term >= s.term && (s'.role == Follower || s.role != Follower || s'.term > s.term)
  }

  lemma AppendRises(s: NodeState, req: AppendReq)
    requires WfLog(s.log) && Numbered(req.entries, req.prevIndex)
    ensures StaysOrRises(s, HandleAppend(s, req).0)
  {
    hide Splice, WfLog, Numbered, Conflict;
  }

  lemma AppendReplyRises(s: NodeState, peers: set<Id>, from: Id, req: AppendReq, resp: AppendResp)
    requires WfLog(s.log)
    ensures StaysOrRises(s, OnAppendReply(s, peers, from, req, resp))
  {
    hide WfLog, HighestCommittable;
  }

  lemma SubmitRises(s: NodeState, peers: set<Id>, command: Str)
    requires WfLog(s.log) && s.role == Leader
    ensures StaysOrRises(s, Submit(s, peers, command))
  {
    hide HighestCommittable;
  }

  lemma VoteRises(s: NodeState, req: VoteReq, leaderless: bool)
    ensures StaysOrRises(s, HandleVote(s, req, leaderless).0)
  {
    hide UpToDate;
  }

  lemma VoteReplyRises(s: NodeState, from: Id, req: VoteReq, resp: VoteResp)
    ensures StaysOrRises(s, OnVoteReply(s, from, req, resp))
  {
  }

  /** A step changes the state of its own node only, if of any. */
  lemma OthersStay(c: Cluster, a: Action, n: Id)
    requires WfCluster(c) && Enabled(c, a) && n in c.members
    ensures n in c.nodes && n in Apply(c, a).nodes && (n != a.n ==> Apply(c, a).nodes[n] == c.nodes[n])
  {
    hide HandleAppend, OnAppendReply, Submit, WfLog, Numbered, CanCampaign, CanLead, NextFor, HandleVote, OnVoteReply;
  }

  lemma StepRises(c: Cluster, a: Action, n: Id)
    requires WfCluster(c) && Enabled(c, a) && n in c.members
    ensures n in Apply(c, a).nodes && StaysOrRises(c.nodes[n], Apply(c, a).nodes[n])
  {
    hide HandleAppend, OnAppendReply, Submit, WfLog, Numbered, CanCampaign, NextFor, HandleVote, OnVoteReply, AllTo;
    OthersStay(c, a, n);
    match a
    case HandleVoteAt(m, p, leaderless) => VoteRises(c.nodes[m], p.vote, leaderless);
    case VoteReplyAt(m, p) => VoteReplyRises(c.nodes[m], p.from, p.vote, p.voteResp);
    case HandleAppendAt(m, p) => AppendRises(c.nodes[m], p.append);
    case AppendReplyAt(m, p) => AppendReplyRises(c.nodes[m], Peers(c, m), p.from, p.append, p.appendResp);
    case SubmitAt(m, command) => SubmitRises(c.nodes[m], Peers(c, m), command);
    case _ =>
  }

  lemma CrashFollows(c: Cluster, a: Action)
    requires WfCluster(c) && Enabled(c, a) && (a.CrashAt? || a.CrashInsideAt?)
    ensures a.n in c.nodes && a.n in Apply(c, a).nodes
    ensures Apply(c, a).nodes[a.n].role == Follower && Apply(c, a).nodes[a.n].term >= c.nodes[a.n].term
  {
  }

  /** From a crash on, the node is a follower or its term has risen. */
  lemma {:induction false} FollowsUntilNewerTerm(states: seq<Cluster>, acts: seq<Action>, i: nat, j: nat)
    requires IsRun(states, acts) && i < j <= |acts| && (acts[i].CrashAt? || acts[i].CrashInsideAt?)
    ensures var n := acts[i].n;
            && n in states[i].nodes && n in states[j].nodes
            && states[j].nodes[n].term >= states[i].nodes[n].term
            && (states[j].nodes[n].role == Follower || states[j].nodes[n].term > states[i].nodes[n].term)
  {
    hide IsRun, Apply, Enabled;
    StepAt(states, acts, j - 1);
    if j == i + 1 {
      CrashFollows(states[i], acts[i]);
    } else {
      FollowsUntilNewerTerm(states, acts, i, j - 1);
      StepRises(states[j - 1], acts[j - 1], acts[i].n);
    }
  }

  /** A node that crashed leads again only in a term newer than the one it crashed in. */
  lemma LeadsNewerTerm(states: seq<Cluster>, acts: seq<Action>, i: nat, j: nat)
    requires IsRun(states, acts) && i < j < |acts| && acts[j].SubmitAt? && acts[j].n == acts[i].n
    requires acts[i].CrashAt? || acts[i].CrashInsideAt?
    ensures acts[i].n in states[i].nodes && acts[j].n in states[j].nodes
    ensures Proposed(states, acts, j).term > states[i].nodes[acts[i].n].term
  {
    hide IsRun, Apply;
    FollowsUntilNewerTerm(states, acts, i, j);
    StepAt(states, acts, j);
  }
}
