/** What each critical section of a consensus node does, as a function from state to state. */
module RaftHandlers {
  import opened ByteStrings
  import opened RaftTypes

  // ----- index helpers -----

  function LastIndex(log: seq<LogEntry>): nat {
    if |log| == 0 then 0 else log[|log| - 1].index
  }

  function LastTerm(log: seq<LogEntry>): nat {
    if |log| == 0 then 0 else log[|log| - 1].term
  }

  /** 0 for index 0 and for an index past the end. */
  function TermAt(log: seq<LogEntry>, index: nat): nat {
    if index == 0 || index > |log| then 0 else log[index - 1].term
  }

  /** An entry sits at the position its index names. */
  predicate WfLog(log: seq<LogEntry>) {
    forall k :: 0 <= k < |log| ==> log[k].index == k + 1
  }

  function Majority(peers: nat): nat {
    (peers + 1) / 2 + 1
  }

  function StepDown(s: NodeState, term: nat): NodeState {
    if term > s.term then s.(term := term, votedFor := NOBODY, role := Follower) else s
  }

  // ----- votes -----

  predicate UpToDate(req: VoteReq, log: seq<LogEntry>) {
    req.lastLogTerm > LastTerm(log) || (req.lastLogTerm == LastTerm(log) && req.lastLogIndex >= LastIndex(log))
  }

  /** `leaderless` is the outcome of the clock test on the last leader contact. */
  function HandleVote(s: NodeState, req: VoteReq, leaderless: bool): (NodeState, VoteResp) {
    if req.preVote then
      (s, VoteResp(s.term, req.term >= s.term && s.role != Leader && UpToDate(req, s.log) && leaderless))
    else
      var t := StepDown(s, req.term);
      if req.term == t.term && (t.votedFor == NOBODY || t.votedFor == req.candidate) && UpToDate(req, t.log) then
        (t.(votedFor := req.candidate), VoteResp(t.term, true))
      else
        (t, VoteResp(t.term, false))
  }

  /** Phase 1 of an election: ask for pre-votes at the next term, without touching term or vote. */
  function BeginPreVote(s: NodeState, me: Id): (NodeState, VoteReq)
    requires s.role != Leader
  {
    (s.(round := PreVoteRound(s.term + 1, {})),
     VoteReq(true, s.term + 1, me, LastIndex(s.log), LastTerm(s.log)))
  }

  function OnVoteReply(s: NodeState, from: Id, req: VoteReq, resp: VoteResp): NodeState {
    if resp.term > s.term then
      StepDown(s, resp.term)
    else if !req.preVote && (s.role != Candidate || s.term != req.term) then
      s
    else if resp.granted && req.preVote && s.round.PreVoteRound? && s.round.term == req.term then
      s.(round := PreVoteRound(req.term, s.round.granted + {from}))
    else if resp.granted && !req.preVote && s.round.VoteRound? && s.round.term == req.term then
      s.(round := VoteRound(req.term, s.round.granted + {from}))
    else
      s
  }

  /** The node's own vote counts. */
  predicate RoundWon(s: NodeState, peers: nat) {
    !s.round.NoRound? && 1 + |s.round.granted| >= Majority(peers)
  }

  predicate CanCampaign(s: NodeState, peers: nat) {
    s.round.PreVoteRound? && RoundWon(s, peers) && s.role != Leader && s.term + 1 == s.round.term
  }

  /** Phase 2 of an election: only now does the term rise. */
  function BeginVote(s: NodeState, me: Id): (NodeState, VoteReq) {
    (s.(term := s.term + 1, role := Candidate, votedFor := me, round := VoteRound(s.term + 1, {})),
     VoteReq(false, s.term + 1, me, LastIndex(s.log), LastTerm(s.log)))
  }

  predicate CanLead(s: NodeState, peers: nat) {
    s.round.VoteRound? && RoundWon(s, peers) && s.role == Candidate && s.term == s.round.term
  }

  function AllTo(peers: set<Id>, v: nat): map<Id, nat> {
    map p | p in peers :: v
  }

  function BecomeLeader(s: NodeState, peers: set<Id>): NodeState {
    s.(role := Leader,
       nextIndex := s.nextIndex + AllTo(peers, LastIndex(s.log) + 1),
       matchIndex := s.matchIndex + AllTo(peers, 0))
  }

  // ----- log replication -----

  /** Entries numbered on from `prev`, as a leader sends them. */
  predicate Numbered(entries: seq<LogEntry>, prev: nat) {
    forall k :: 0 <= k < |entries| ==> entries[k].index == prev + 1 + k
  }

  /** Keeps entries that already match; a conflict drops the old suffix. */
  function Splice(log: seq<LogEntry>, prev: nat, entries: seq<LogEntry>): (r: seq<LogEntry>)
    requires WfLog(log) && prev <= |log| && Numbered(entries, prev)
    ensures WfLog(r) && |r| >= prev + |entries|
    decreases |entries|
  {
    if entries == [] then
      log
    else
      var e := entries[0];
      if e.index <= LastIndex(log) then
        if TermAt(log, e.index) == e.term then
          Splice(log, prev + 1, entries[1..])
        else
          Splice(log[..e.index - 1] + [e], prev + 1, entries[1..])
      else
        Splice(log + [e], prev + 1, entries[1..])
  }

  function Min(a: nat, b: nat): nat {
    if a <= b then a else b
  }

  function Max(a: nat, b: nat): nat {
    if a <= b then b else a
  }

  /** Hands the committed entries that were not applied yet to the state machine, in log order. */
  function ApplyCommitted(s: NodeState): NodeState
    requires s.commitIndex <= |s.log|
  {
    if |s.applied| < s.commitIndex then
      s.(applied := s.applied + s.log[|s.applied|..s.commitIndex])
    else
      s
  }

  /** Why a follower at the request's term refuses it, or 0 if it does not. */
  function Conflict(log: seq<LogEntry>, req: AppendReq): nat {
    if req.prevIndex > LastIndex(log) then LastIndex(log) + 1
    else if req.prevIndex > 0 && TermAt(log, req.prevIndex) != req.prevTerm then req.prevIndex
    else 0
  }

  /** A follower at the request's term takes the entries, then commits what the leader committed. */
  function Accept(s: NodeState, req: AppendReq): NodeState
    requires WfLog(s.log) && Numbered(req.entries, req.prevIndex) && Conflict(s.log, req) == 0
  {
    var t := s.(log := Splice(s.log, req.prevIndex, req.entries));
    if req.leaderCommit > t.commitIndex
    then ApplyCommitted(t.(commitIndex := Min(req.leaderCommit, LastIndex(t.log))))
    else t
  }

  function HandleAppend(s: NodeState, req: AppendReq): (NodeState, AppendResp)
    requires WfLog(s.log) && Numbered(req.entries, req.prevIndex)
  {
    if req.term < s.term then
      (s, AppendResp(s.term, false, 0))
    else
      var t := StepDown(s, req.term).(role := Follower);
      if Conflict(t.log, req) != 0 then
        (t, AppendResp(t.term, false, Conflict(t.log, req)))
      else
        (Accept(t, req), AppendResp(t.term, true, 0))
  }

  /** The request that brings peer `to` up to the leader's last entry. */
  function MakeAppend(s: NodeState, me: Id, to: Id): AppendReq
    requires NextFor(s, to) >= 1
  {
    var next := NextFor(s, to);
    AppendReq(s.term, me, next - 1, TermAt(s.log, next - 1),
              if next <= |s.log| then s.log[next - 1..] else [], s.commitIndex)
  }

  function NextFor(s: NodeState, to: Id): nat {
    if to in s.nextIndex then s.nextIndex[to] else LastIndex(s.log) + 1
  }

  /** The replicas known to hold the log through n, the leader included. */
  function Holders(s: NodeState, peers: set<Id>, n: nat): nat {
    1 + |set p | p in peers && p in s.matchIndex && s.matchIndex[p] >= n|
  }

  predicate CanCommit(s: NodeState, peers: set<Id>, n: nat) {
    TermAt(s.log, n) == s.term && Holders(s, peers, n) >= Majority(|peers|)
  }

  /** The highest committable index in (commitIndex, n], or commitIndex itself. */
  function HighestCommittable(s: NodeState, peers: set<Id>, n: nat): (r: nat)
    ensures r == s.commitIndex || (s.commitIndex < r <= n && CanCommit(s, peers, r))
    ensures forall m :: r < m <= n ==> !CanCommit(s, peers, m)
  {
    if n <= s.commitIndex then s.commitIndex
    else if CanCommit(s, peers, n) then n
    else HighestCommittable(s, peers, n - 1)
  }

  function AdvanceCommit(s: NodeState, peers: set<Id>): NodeState
    requires WfLog(s.log)
  {
    var n := HighestCommittable(s, peers, LastIndex(s.log));
    if n > s.commitIndex then ApplyCommitted(s.(commitIndex := n)) else s
  }

  /** Peer `from` holds the leader's log through `end`. */
  function RecordMatch(s: NodeState, from: Id, end: nat): NodeState {
    var matched := Max(if from in s.matchIndex then s.matchIndex[from] else 0, end);
    s.(matchIndex := s.matchIndex[from := matched], nextIndex := s.nextIndex[from := matched + 1])
  }

  function OnMatch(s: NodeState, peers: set<Id>, from: Id, end: nat): NodeState
    requires WfLog(s.log)
  {
    AdvanceCommit(RecordMatch(s, from, end), peers)
  }

  function OnAppendReply(s: NodeState, peers: set<Id>, from: Id, req: AppendReq, resp: AppendResp): NodeState
    requires WfLog(s.log)
  {
    if s.term != req.term || s.role != Leader then
      s
    else if resp.term > s.term then
      StepDown(s, resp.term)
    else if resp.success then
      OnMatch(s, peers, from, req.prevIndex + |req.entries|)
    else
      s.(nextIndex := s.nextIndex[from := if resp.conflictIndex == 0 then 1 else resp.conflictIndex])
  }

  function Appended(s: NodeState, command: Str): NodeState {
    s.(log := s.log + [LogEntry(s.term, LastIndex(s.log) + 1, command)])
  }

  /** A leader appends the command at its own term. */
  function Submit(s: NodeState, peers: set<Id>, command: Str): NodeState
    requires WfLog(s.log) && s.role == Leader
  {
    AdvanceCommit(Appended(s, command), peers)
  }

  /** What WaitApplied finds on one look: applied, overwritten or overtaken, or not decided yet. */
  datatype Waiting = Applied | Lost | Undecided

  function Look(s: NodeState, index: nat, term: nat): Waiting {
    if |s.applied| < index then
      if s.term > term || (index <= LastIndex(s.log) && TermAt(s.log, index) != term) then Lost else Undecided
    else if TermAt(s.log, index) != term then Lost
    else Applied
  }

  /** WaitApplied over what it sees at each wake-up before its deadline: the first look that decides; Undecided is the timeout. */
  function Await(looks: seq<NodeState>, index: nat, term: nat): Waiting {
    if looks == [] then Undecided
    else if Look(looks[0], index, term) != Undecided then Look(looks[0], index, term)
    else Await(looks[1..], index, term)
  }

  /** A crash keeps the durable triple only. */
  function Restart(s: NodeState): NodeState {
    NodeState(s.term, s.votedFor, s.log, Follower, 0, [], map[], map[], NoRound)
  }
}
