/**
  The facts that every step of a consensus group keeps. They speak of a history that only the proof
  sees: votes cast, logs of candidates, the growing log of each term's leader, and what each node
  acknowledged in each term.
 */
module RaftInvariants {
  import opened ByteStrings
  import opened RaftTypes
  import opened RaftHandlers
  import opened RaftCluster

  datatype Leadership = Leadership(id: Id, voters: set<Id>, log: seq<LogEntry>)

  datatype History = History(
    votes: map<(Id, nat), Id>,
    candidates: map<(Id, nat), seq<LogEntry>>,
    leaders: map<nat, Leadership>,
    acks: map<(Id, nat), nat>)

  // ----- reading the history -----

  /** How much of the log of term t's leader node n acknowledged in term t. */
  function Ack(h: History, n: Id, t: nat): nat {
    if (n, t) in h.acks then h.acks[(n, t)] else 0
  }

  ghost predicate IsMajority(members: set<Id>, q: set<Id>) {
    q <= members && |q| >= |members| / 2 + 1
  }

  /** Position k of the log of term t's leader holds an entry of term t. */
  ghost predicate OwnEntry(h: History, t: nat, k: nat) {
    t in h.leaders && 1 <= k <= |h.leaders[t].log| && h.leaders[t].log[k - 1].term == t
  }

  ghost function Acked(h: History, members: set<Id>, t: nat, k: nat): set<Id> {
    set n | n in members && Ack(h, n, t) >= k
  }

  /** The majority and current-term rule. */
  ghost predicate Committed(h: History, members: set<Id>, t: nat, k: nat) {
    OwnEntry(h, t, k) && IsMajority(members, Acked(h, members, t, k))
  }

  ghost function MayAck(c: Cluster, h: History, t: nat, k: nat): set<Id>
    requires WfCluster(c)
  {
    set n | n in c.members && (Ack(h, n, t) >= k || c.nodes[n].term <= t)
  }

  /** Term t may still commit position k. */
  ghost predicate Choosable(c: Cluster, h: History, t: nat, k: nat)
    requires WfCluster(c)
  {
    IsMajority(c.members, MayAck(c, h, t, k))
  }

  /** `p` was committed no later than term `bound`. */
  ghost predicate CommittedPrefixAt(h: History, members: set<Id>, p: seq<LogEntry>, bound: nat, t: nat, k: nat) {
    t <= bound && Committed(h, members, t, k) && |p| <= k && p <= h.leaders[t].log
  }

  ghost predicate CommittedPrefix(h: History, members: set<Id>, p: seq<LogEntry>, bound: nat) {
    p == [] || exists t: nat, k: nat :: CommittedPrefixAt(h, members, p, bound, t, k)
  }

  // ----- one log -----

  ghost predicate EntryOK(h: History, log: seq<LogEntry>, k: nat)
    requires k < |log|
  {
    && log[k].index == k + 1
    && log[k].term in h.leaders
    && log[..k + 1] <= h.leaders[log[k].term].log
  }

  /** Up to each of its entries, the log is what that entry's term wrote. */
  ghost predicate LogOK(h: History, log: seq<LogEntry>) {
    forall k :: 0 <= k < |log| ==> EntryOK(h, log, k)
  }

  ghost predicate TermsUpTo(log: seq<LogEntry>, t: nat) {
    forall k :: 0 <= k < |log| ==> log[k].term <= t
  }

  // ----- one node -----

  ghost predicate VoteOK(h: History, n: Id, s: NodeState) {
    && (s.votedFor != NOBODY ==> (n, s.term) in h.votes)
    && forall t :: (n, t) in h.votes ==> t <= s.term && (t == s.term ==> h.votes[(n, t)] == s.votedFor)
  }

  ghost predicate GrantsOK(h: History, members: set<Id>, n: Id, s: NodeState) {
    s.role == Candidate && s.round.VoteRound? && s.round.term == s.term ==>
      && n !in s.round.granted
      && forall p :: p in s.round.granted ==> p in members && (p, s.term) in h.votes && h.votes[(p, s.term)] == n
  }

  ghost predicate RoleOK(h: History, members: set<Id>, n: Id, s: NodeState) {
    && (s.role == Leader ==>
          s.term in h.leaders && h.leaders[s.term].id == n && h.leaders[s.term].log == s.log && Ack(h, n, s.term) == |s.log|)
    && (s.role == Candidate ==>
          s.votedFor == n && (n, s.term) in h.candidates && h.candidates[(n, s.term)] == s.log)
    && GrantsOK(h, members, n, s)
    && (forall t :: t in h.leaders && h.leaders[t].id == n ==> t < s.term || (t == s.term && s.role != Candidate))
  }

  ghost predicate PeersOK(h: History, members: set<Id>, n: Id, s: NodeState) {
    s.role == Leader ==> forall p :: p in members - {n} ==>
      && p in s.matchIndex && s.matchIndex[p] <= Ack(h, p, s.term) && s.matchIndex[p] <= |s.log|
      && p in s.nextIndex && 1 <= s.nextIndex[p] <= |s.log| + 1
  }

  ghost predicate AckOK(h: History, n: Id, s: NodeState) {
    forall t :: (n, t) in h.acks ==>
      && t <= s.term && t in h.leaders && h.acks[(n, t)] <= |h.leaders[t].log|
      && (t == s.term ==> h.leaders[t].log[..h.acks[(n, t)]] <= s.log)
  }

  ghost predicate CommitOK(h: History, members: set<Id>, s: NodeState) {
    && s.commitIndex <= |s.log|
    && s.applied == s.log[..s.commitIndex]
    && CommittedPrefix(h, members, s.log[..s.commitIndex], s.term)
  }

  ghost predicate NodeOK(h: History, members: set<Id>, n: Id, s: NodeState) {
    && LogOK(h, s.log)
    && TermsUpTo(s.log, s.term)
    && VoteOK(h, n, s)
    && RoleOK(h, members, n, s)
    && PeersOK(h, members, n, s)
    && AckOK(h, n, s)
    && CommitOK(h, members, s)
  }

  // ----- one packet -----

  ghost predicate AppendReqOK(h: History, members: set<Id>, req: AppendReq) {
    && req.leader in members
    && req.term in h.leaders && h.leaders[req.term].id == req.leader
    && var log := h.leaders[req.term].log;
       var end := req.prevIndex + |req.entries|;
       && end <= |log|
       && req.entries == log[req.prevIndex..end]
       && req.prevTerm == TermAt(log, req.prevIndex)
       && req.leaderCommit <= end
  }

  ghost predicate SentCommitOK(h: History, members: set<Id>, req: AppendReq) {
    && req.term in h.leaders && req.leaderCommit <= |h.leaders[req.term].log|
    && CommittedPrefix(h, members, h.leaders[req.term].log[..req.leaderCommit], req.term)
  }

  ghost predicate PacketOK(h: History, members: set<Id>, p: Packet) {
    match p
    case VoteRequest(to, req) =>
      && to in members && req.candidate in members && to != req.candidate
      && (!req.preVote ==>
            && (req.candidate, req.term) in h.candidates
            && var log := h.candidates[(req.candidate, req.term)];
               req.lastLogIndex == |log| && req.lastLogTerm == LastTerm(log))
    case VoteReply(from, req, resp) =>
      && from in members && req.candidate in members && from != req.candidate
      && (!req.preVote && resp.granted ==> (from, req.term) in h.votes && h.votes[(from, req.term)] == req.candidate)
    case AppendRequest(to, req) =>
      to in members && to != req.leader && AppendReqOK(h, members, req) && SentCommitOK(h, members, req)
    case AppendReply(from, req, resp) =>
      && from in members && from != req.leader && AppendReqOK(h, members, req)
      && (resp.success ==> req.prevIndex + |req.entries| <= Ack(h, from, req.term))
      && (!resp.success && resp.term <= req.term ==> 1 <= resp.conflictIndex <= req.prevIndex)
  }

  // ----- the history itself -----

  ghost predicate LeaderOK(h: History, members: set<Id>, t: nat)
    requires t in h.leaders
  {
    && var l := h.leaders[t];
       && l.id in members
       && IsMajority(members, l.voters)
       && (forall v :: v in l.voters ==> (v, t) in h.votes && h.votes[(v, t)] == l.id)
       && LogOK(h, l.log)
       && TermsUpTo(l.log, t)
  }

  ghost predicate LeadersOK(h: History, members: set<Id>) {
    forall t :: t in h.leaders ==> LeaderOK(h, members, t)
  }

  /** A candidate's log is older than the term it runs for. */
  ghost predicate CandidatesOK(h: History) {
    forall n, t :: (n, t) in h.candidates ==>
      t > 0 && LogOK(h, h.candidates[(n, t)]) && TermsUpTo(h.candidates[(n, t)], t - 1)
  }

  /** Votes and acknowledgements come from members; a vote goes to a member that ran. */
  ghost predicate KeysOK(h: History, members: set<Id>) {
    && (forall n, t :: (n, t) in h.votes ==> n in members && (h.votes[(n, t)], t) in h.candidates)
    && (forall n, t :: (n, t) in h.candidates ==> n in members && (n, t) in h.votes && h.votes[(n, t)] == n)
    && (forall n, t :: (n, t) in h.acks ==> n in members)
  }

  // ----- what elections and commits owe each other -----

  ghost predicate Keeps(h: History, t: nat, k: nat, log: seq<LogEntry>)
    requires OwnEntry(h, t, k)
  {
    h.leaders[t].log[..k] <= log
  }

  /** What a node acknowledged and is still choosable is in its log. */
  ghost predicate AcksKept(c: Cluster, h: History)
    requires WfCluster(c)
  {
    forall v, t: nat, k: nat :: v in c.members && OwnEntry(h, t, k) && k <= Ack(h, v, t) && Choosable(c, h, t, k) ==>
      Keeps(h, t, k, c.nodes[v].log)
  }

  /** What a voter acknowledged in an older term and is still choosable is in the log of the one it voted for. */
  ghost predicate VotesKept(c: Cluster, h: History)
    requires WfCluster(c) && KeysOK(h, c.members)
  {
    forall v, u: nat, t: nat, k: nat :: (v, u) in h.votes && OwnEntry(h, t, k) && t < u && k <= Ack(h, v, t) && Choosable(c, h, t, k) ==>
      Keeps(h, t, k, h.candidates[(h.votes[(v, u)], u)])
  }

  /** What an older term may still commit is in the log of every newer leader. */
  ghost predicate LeadersComplete(c: Cluster, h: History)
    requires WfCluster(c)
  {
    forall t: nat, u: nat, k: nat :: OwnEntry(h, t, k) && u in h.leaders && t < u && Choosable(c, h, t, k) ==>
      Keeps(h, t, k, h.leaders[u].log)
  }

  ghost predicate Inv(c: Cluster, h: History) {
    && WfCluster(c)
    && KeysOK(h, c.members)
    && LeadersOK(h, c.members)
    && CandidatesOK(h)
    && (forall n :: n in c.members ==> NodeOK(h, c.members, n, c.nodes[n]))
    && (forall p :: p in c.net ==> PacketOK(h, c.members, p))
    && AcksKept(c, h)
    && VotesKept(c, h)
    && LeadersComplete(c, h)
  }
}
