/** Byte strings: what the C++ source calls std::string. */
module ByteStrings {
  type byte = x: int | 0 <= x < 256
  type Str = seq<byte>
}

/** The data that consensus nodes hold and exchange. Terms and indices are unbounded here. */
module RaftTypes {
  import opened ByteStrings

  type Id = Str

  /** An empty voted_for_ means that no vote was cast. */
  const NOBODY: Id := []

  datatype Role = Follower | Candidate | Leader

  /** `index` is the 1-based position in the log. */
  datatype LogEntry = LogEntry(term: nat, index: nat, command: Str)

  datatype VoteReq = VoteReq(preVote: bool, term: nat, candidate: Id, lastLogIndex: nat, lastLogTerm: nat)
  datatype VoteResp = VoteResp(term: nat, granted: bool)

  datatype AppendReq = AppendReq(term: nat, leader: Id, prevIndex: nat, prevTerm: nat,
                                 entries: seq<LogEntry>, leaderCommit: nat)
  datatype AppendResp = AppendResp(term: nat, success: bool, conflictIndex: nat)

  /** The locals of the election thread: the round under way and the peers that granted it. */
  datatype Round = NoRound | PreVoteRound(term: nat, granted: set<Id>) | VoteRound(term: nat, granted: set<Id>)

  /**
    One node between two critical sections of its mutex. `term`, `votedFor` and `log` are durable.
    `applied` lists the entries handed to the state machine since start, so last_applied_ is |applied|.
   */
  datatype NodeState = NodeState(
    term: nat, votedFor: Id, log: seq<LogEntry>,
    role: Role, commitIndex: nat, applied: seq<LogEntry>,
    nextIndex: map<Id, nat>, matchIndex: map<Id, nat>,
    round: Round)
}
