/**
  A consensus group as a state machine. The network is the set of packets ever sent: a packet may be
  delivered late, twice, out of order or never. A reply carries the request it answers, as an RPC does.
 */
module RaftCluster {
  import opened ByteStrings
  import opened RaftTypes
  import opened RaftHandlers

  datatype Packet =
    | VoteRequest(to: Id, vote: VoteReq)
    | VoteReply(from: Id, vote: VoteReq, voteResp: VoteResp)
    | AppendRequest(to: Id, append: AppendReq)
    | AppendReply(from: Id, append: AppendReq, appendResp: AppendResp)

  datatype Cluster = Cluster(members: set<Id>, nodes: map<Id, NodeState>, net: set<Packet>)

  /** One atomic step of node `n`. */
  datatype Action =
    | HandleVoteAt(n: Id, p: Packet, leaderless: bool)
    | HandleAppendAt(n: Id, p: Packet)
    | VoteReplyAt(n: Id, p: Packet)
    | AppendReplyAt(n: Id, p: Packet)
    | PreVoteAt(n: Id)
    | CampaignAt(n: Id)
    | LeadAt(n: Id)
    | ReplicateAt(n: Id, to: Id)
    | SubmitAt(n: Id, command: Str)
    | CrashAt(n: Id)
    // The newer term of a request was made durable, then the node crashed.
    | CrashInsideAt(n: Id, p: Packet)

  predicate WfCluster(c: Cluster) {
    && NOBODY !in c.members
    && c.nodes.Keys == c.members
    && forall n :: n in c.members ==> WfLog(c.nodes[n].log)
  }

  function Peers(c: Cluster, n: Id): set<Id> {
    c.members - {n}
  }

  function FreshNode(): NodeState {
    NodeState(0, NOBODY, [], Follower, 0, [], map[], map[], NoRound)
  }

  predicate Init(c: Cluster) {
    && NOBODY !in c.members
    && c.nodes == (map n | n in c.members :: FreshNode())
    && c.net == {}
  }

  /** What the source itself tests before the step. */
  predicate Guard(c: Cluster, a: Action)
    requires WfCluster(c)
  {
    && a.n in c.members
    && var s := c.nodes[a.n];
       match a
       case HandleVoteAt(n, p, _) => p in c.net && p.VoteRequest? && p.to == n
       case HandleAppendAt(n, p) => p in c.net && p.AppendRequest? && p.to == n
       case VoteReplyAt(n, p) => p in c.net && p.VoteReply? && p.vote.candidate == n
       case AppendReplyAt(n, p) => p in c.net && p.AppendReply? && p.append.leader == n
       case PreVoteAt(n) => s.role != Leader
       case CampaignAt(n) => CanCampaign(s, |Peers(c, n)|)
       case LeadAt(n) => CanLead(s, |Peers(c, n)|)
       case ReplicateAt(n, to) => to in Peers(c, n) && s.role == Leader
       case SubmitAt(n, _) => s.role == Leader
       case CrashAt(_) => true
       case CrashInsideAt(n, p) => p in c.net && ((p.VoteRequest? && !p.vote.preVote) || p.AppendRequest?) && p.to == n
  }

  /** What the source relies on without a test: requests are numbered, and next_index_ is never 0. */
  predicate Safe(c: Cluster, a: Action)
    requires WfCluster(c) && Guard(c, a)
  {
    match a
    case HandleAppendAt(_, p) => Numbered(p.append.entries, p.append.prevIndex)
    case ReplicateAt(n, to) => NextFor(c.nodes[n], to) >= 1
    case _ => true
  }

  predicate Enabled(c: Cluster, a: Action)
    requires WfCluster(c)
  {
    Guard(c, a) && Safe(c, a)
  }

  function Update(c: Cluster, n: Id, s: NodeState, sent: set<Packet>): Cluster {
    c.(nodes := c.nodes[n := s], net := c.net + sent)
  }

  /** The same vote request goes to every peer. */
  function Ask(peers: set<Id>, req: VoteReq): set<Packet> {
    set p | p in peers :: VoteRequest(p, req)
  }

  function Apply(c: Cluster, a: Action): Cluster
    requires WfCluster(c) && Enabled(c, a)
  {
    var s := c.nodes[a.n];
    match a
    case HandleVoteAt(n, p, leaderless) =>
      var (t, resp) := HandleVote(s, p.vote, leaderless);
      Update(c, n, t, {VoteReply(n, p.vote, resp)})
    case HandleAppendAt(n, p) =>
      var (t, resp) := HandleAppend(s, p.append);
      Update(c, n, t, {AppendReply(n, p.append, resp)})
    case VoteReplyAt(n, p) => Update(c, n, OnVoteReply(s, p.from, p.vote, p.voteResp), {})
    case AppendReplyAt(n, p) => Update(c, n, OnAppendReply(s, Peers(c, n), p.from, p.append, p.appendResp), {})
    case PreVoteAt(n) =>
      var (t, req) := BeginPreVote(s, n);
      Update(c, n, t, Ask(Peers(c, n), req))
    case CampaignAt(n) =>
      var (t, req) := BeginVote(s, n);
      Update(c, n, t, Ask(Peers(c, n), req))
    case LeadAt(n) => Update(c, n, BecomeLeader(s, Peers(c, n)), {})
    case ReplicateAt(n, to) => Update(c, n, s, {AppendRequest(to, MakeAppend(s, n, to))})
    case SubmitAt(n, command) => Update(c, n, Submit(s, Peers(c, n), command), {})
    case CrashAt(n) => Update(c, n, Restart(s), {})
    case CrashInsideAt(n, p) =>
      Update(c, n, Restart(StepDown(s, if p.VoteRequest? then p.vote.term else p.append.term)), {})
  }

  /** `states` is the run that starts fresh and takes the steps `acts`. */
  predicate IsRun(states: seq<Cluster>, acts: seq<Action>) {
    && |states| == |acts| + 1
    && Init(states[0])
    && (forall i :: 0 <= i < |states| ==> WfCluster(states[i]))
    && (forall i :: 0 <= i < |acts| ==> Enabled(states[i], acts[i]) && states[i + 1] == Apply(states[i], acts[i]))
  }
}
