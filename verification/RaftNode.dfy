/** The consensus node as an object. Every method is one critical section of the source's mutex. */
module RaftNode {
  import opened ByteStrings
  import opened Wire
  import opened RaftTypes
  import opened RaftHandlers
  import opened FramedLog
  import opened RaftStorage

  class RaftNode {
    const id: Id
    const peers: seq<Id>
    const storage: Storage

    var currentTerm: nat
    var votedFor: Id
    var log: seq<LogEntry>
    var role: Role
    var commitIndex: nat
    var lastApplied: nat
    var applied: seq<LogEntry>  // the calls made to the state machine
    var nextIndex: map<Id, nat>
    var matchIndex: map<Id, nat>
    var round: Round

    ghost function State(): NodeState
      reads this
    {
      NodeState(currentTerm, votedFor, log, role, commitIndex, applied, nextIndex, matchIndex, round)
    }

    ghost function PeerSet(): set<Id> {
      set p | p in peers
    }

    /** What is on disk loads as what is in memory. */
    ghost predicate Durable()
      reads this, storage
    {
      LoadHard(storage.state) == HardState(currentTerm, votedFor) && LoadLog(storage.log) == log
    }

    /** The log file ends with a whole frame. */
    ghost predicate Intact()
      reads this, storage
    {
      storage.log == LogFile(log)
    }

    /** Peers are distinct and exclude the node; everything fits the fields on disk. */
    ghost predicate Valid()
      reads this
    {
      && id !in peers && (forall i, j :: 0 <= i < j < |peers| ==> peers[i] != peers[j])
      && |id| < U32 - 12
      && WfLog(log) && lastApplied == |applied|
      && LogFits(log) && HardFits(HardState(currentTerm, votedFor))
    }

    /** A restart takes term, vote and log from disk, and nothing else. */
    constructor (id: Id, peers: seq<Id>, storage: Storage)
      requires id !in peers && (forall i, j :: 0 <= i < j < |peers| ==> peers[i] != peers[j]) && |id| < U32 - 12
      requires WfLog(LoadLog(storage.log)) && LogFits(LoadLog(storage.log)) && HardFits(LoadHard(storage.state))
      ensures this.id == id && this.peers == peers && this.storage == storage
      ensures Valid() && Durable()
      ensures State() == NodeState(LoadHard(storage.state).term, LoadHard(storage.state).votedFor, LoadLog(storage.log),
                                   Follower, 0, [], map[], map[], NoRound)
    {
      hide LogFile, LoadHard, LoadLog, LogFits, WfLog, HardFits;
      this.id, this.peers, this.storage := id, peers, storage;
      role, commitIndex, lastApplied, applied := Follower, 0, 0, [];
      nextIndex, matchIndex, round := map[], map[], NoRound;
      new;
      var hs := storage.LoadedHardState();
      currentTerm, votedFor := hs.term, hs.votedFor;
      log := storage.LoadedLog();
    }

    method PersistHardState()
      requires Valid()
      modifies storage`state
      ensures LoadHard(storage.state) == HardState(currentTerm, votedFor)
    {
      storage.SaveHardState(HardState(currentTerm, votedFor));
      HardFileLoads(HardState(currentTerm, votedFor));
    }

    method StepDownIfStale(term: nat)
      requires Valid() && Durable() && term < U64
      modifies this, storage`state
      ensures Valid() && Durable() && State() == StepDown(old(State()), term)
    {
      hide LoadLog, LoadHard, LogFile;
      if term > currentTerm {
        currentTerm := term;
        votedFor := NOBODY;
        role := Follower;
        PersistHardState();
      }
    }

    method HandleRequestVote(req: VoteReq, leaderless: bool) returns (resp: VoteResp)
      requires Valid() && Durable() && req.term < U64 && |req.candidate| < U32 - 12
      modifies this, storage`state
      ensures Valid() && Durable()
      ensures (State(), resp) == HandleVote(old(State()), req, leaderless)
    {
      hide LoadLog, LoadHard, LogFile;
      if req.preVote {
        var grant := false;
        if req.term >= currentTerm && role != Leader {
          grant := UpToDate(req, log) && leaderless;
        }
        return VoteResp(currentTerm, grant);
      }
      StepDownIfStale(req.term);
      var grant := false;
      if req.term == currentTerm && (votedFor == NOBODY || votedFor == req.candidate) {
        if UpToDate(req, log) {
          grant := true;
          votedFor := req.candidate;
          PersistHardState();
        }
      }
      resp := VoteResp(currentTerm, grant);
    }

    method ApplyCommittedEntries()
      requires lastApplied == |applied| && commitIndex <= |log|
      modifies this`lastApplied, this`applied
      ensures lastApplied == |applied| && State() == ApplyCommitted(old(State()))
    {
      while lastApplied < commitIndex
        invariant lastApplied == |applied| && old(lastApplied) <= lastApplied
        invariant if old(lastApplied) <= commitIndex
                  then lastApplied <= commitIndex && applied == old(applied) + log[old(lastApplied)..lastApplied]
                  else applied == old(applied)
      {
        lastApplied := lastApplied + 1;
        applied := applied + [log[lastApplied - 1]];
      }
    }

    /** The loop over the entries of a request. */
    method TakeEntries(prev: nat, entries: seq<LogEntry>) returns (changed: bool)
      requires WfLog(log) && prev <= |log| && Numbered(entries, prev)
      modifies this`log
      ensures log == Splice(old(log), prev, entries)
      ensures !changed ==> log == old(log)
    {
      hide Splice;
      changed := false;
      var i := 0;
      assert entries[0..] == entries;
      while i < |entries|
        invariant 0 <= i <= |entries| && WfLog(log) && prev + i <= |log|
        invariant Splice(log, prev + i, entries[i..]) == Splice(old(log), prev, entries)
        invariant !changed ==> log == old(log)
      {
        var e := entries[i];
        assert entries[i..][1..] == entries[i + 1..];
        TakeOne(log, prev + i, entries[i..]);
        if e.index <= LastIndex(log) && TermAt(log, e.index) == e.term {
          i := i + 1;
          continue;
        }
        if e.index <= LastIndex(log) {
          log := log[..e.index - 1];
        }
        log := log + [e];
        changed := true;
        i := i + 1;
      }
      SpliceNone(log, prev + i, entries[i..]);
    }

    method RewriteLog()
      requires LogFits(log)
      modifies storage`log
      ensures LoadLog(storage.log) == log && Intact()
    {
      hide LogFile, LoadLog;
      storage.RewriteLog(log);
      LogFileLoads(log, |LogFile(log)|);
    }

    method HandleAppendEntries(req: AppendReq) returns (resp: AppendResp)
      requires Valid() && Durable() && req.term < U64 && LogFits(req.entries) && Numbered(req.entries, req.prevIndex)
      modifies this, storage
      ensures Valid() && Durable() && (old(Intact()) ==> Intact())
      ensures (State(), resp) == HandleAppend(old(State()), req)
    {
      hide LoadLog, LoadHard, LogFile, Splice, LogFits, WfLog, Numbered;
      if req.term < currentTerm {
        return AppendResp(currentTerm, false, 0);
      }
      StepDownIfStale(req.term);
      role := Follower;
      if req.prevIndex > LastIndex(log) {
        return AppendResp(currentTerm, false, LastIndex(log) + 1);
      }
      if req.prevIndex > 0 && TermAt(log, req.prevIndex) != req.prevTerm {
        return AppendResp(currentTerm, false, req.prevIndex);
      }
      LastIsLength(log);
      SpliceFits(log, req.prevIndex, req.entries);
      var changed := TakeEntries(req.prevIndex, req.entries);
      if changed {
        RewriteLog();
      }
      resp := AppendResp(currentTerm, true, 0);
      if req.leaderCommit > commitIndex {
        LastIsLength(log);
        commitIndex := Min(req.leaderCommit, LastIndex(log));
        ApplyCommittedEntries();
      }
    }

    /** The highest index above commitIndex that a majority holds and that is of this term. */
    method Advance()
      requires Valid()
      modifies this`commitIndex, this`lastApplied, this`applied
      ensures lastApplied == |applied| && State() == AdvanceCommit(old(State()), PeerSet())
    {
      hide LogFits, HardFits;
      LastIsLength(log);
      var n := LastIndex(log);
      while n > commitIndex
        invariant State() == old(State()) && lastApplied == |applied| && 0 <= n <= LastIndex(log)
        invariant HighestCommittable(State(), PeerSet(), n) == HighestCommittable(State(), PeerSet(), LastIndex(log))
      {
        if TermAt(log, n) == currentTerm {
          var count := CountHolders(n);
          SetOfDistinct(peers);
          if count >= Majority(|peers|) {
            commitIndex := n;
            ApplyCommittedEntries();
            return;
          }
        }
        n := n - 1;
      }
    }

    method CountHolders(n: nat) returns (count: nat)
      requires Valid()
      ensures count == Holders(State(), PeerSet(), n)
    {
      hide WfLog, LogFits, HardFits;
      count := 1;
      for i := 0 to |peers|
        invariant count == 1 + |PeersHolding(peers[..i], matchIndex, n)|
      {
        var p := peers[i];
        assert p !in peers[..i];
        assert peers[..i + 1] == peers[..i] + [p];
        OneMoreHolding(peers[..i], p, matchIndex, n);
        if p in matchIndex && matchIndex[p] >= n {
          count := count + 1;
        }
      }
      assert peers[..|peers|] == peers;
      assert PeersHolding(peers, matchIndex, n) == set p | p in PeerSet() && p in matchIndex && matchIndex[p] >= n;
    }

    /**
      Appends to log and file before the entry counts. Behind an intact file the entry is durable; behind a
      torn tail the frame is written all the same.
     */
    method Propose(command: Str) returns (index: Option<nat>)
      requires Valid() && Durable()
      requires |log| + 1 < U64 && |command| < U32 - 20
      modifies this, storage`log
      ensures Valid() && LoadHard(storage.state) == HardState(currentTerm, votedFor)
      ensures old(role) != Leader ==> index == None && State() == old(State()) && storage.log == old(storage.log) && Durable()
      ensures old(role) == Leader ==> index == Some(|old(log)| + 1) && State() == Submit(old(State()), PeerSet(), command)
      ensures old(role) == Leader ==> storage.log == old(storage.log) + Frame(EncodeEntry(log[|log| - 1]))
      ensures old(role) == Leader && old(Intact()) ==> Intact() && Durable()
    {
      hide HighestCommittable, LogFile, LoadLog, LoadHard, Frame;
      if role != Leader {
        return None;
      }
      LastIsLength(log);
      var entry := LogEntry(currentTerm, LastIndex(log) + 1, command);
      AppendedFile(log, entry);
      LogFileLoads(log + [entry], |LogFile(log + [entry])|);
      log := log + [entry];
      storage.AppendEntry(entry);
      Advance();
      AdvanceFrame(old(State()), PeerSet(), command);
      return Some(entry.index);
    }

    method Poll(index: nat, term: nat) returns (w: Waiting)
      requires Valid()
      ensures w == Look(State(), index, term)
    {
      if lastApplied < index {
        if currentTerm > term {
          return Lost;
        }
        if index <= LastIndex(log) && TermAt(log, index) != term {
          return Lost;
        }
        return Undecided;
      }
      if TermAt(log, index) != term {
        return Lost;
      }
      w := Applied;
    }

    method StartPreVote() returns (req: Option<VoteReq>)
      requires Valid() && Durable()
      modifies this`round
      ensures Valid() && Durable()
      ensures old(role) == Leader ==> req == None && State() == old(State())
      ensures old(role) != Leader ==> req.Some? && (State(), req.value) == BeginPreVote(old(State()), id)
    {
      hide LoadLog, LoadHard, LogFile;
      if role == Leader {
        return None;
      }
      round := PreVoteRound(currentTerm + 1, {});
      req := Some(VoteReq(true, currentTerm + 1, id, LastIndex(log), LastTerm(log)));
    }

    method HandleVoteReply(from: Id, req: VoteReq, resp: VoteResp)
      requires Valid() && Durable() && resp.term < U64
      modifies this, storage`state
      ensures Valid() && Durable() && State() == OnVoteReply(old(State()), from, req, resp)
    {
      hide LoadLog, LoadHard, LogFile;
      if resp.term > currentTerm {
        StepDownIfStale(resp.term);
        return;
      }
      if !req.preVote && (role != Candidate || currentTerm != req.term) {
        return;
      }
      if resp.granted {
        if req.preVote && round.PreVoteRound? && round.term == req.term {
          round := PreVoteRound(req.term, round.granted + {from});
        } else if !req.preVote && round.VoteRound? && round.term == req.term {
          round := VoteRound(req.term, round.granted + {from});
        }
      }
    }

    /** Phase 2, after a pre-vote round; `contacted` is the outcome of the clock test on the last leader contact. */
    method StartVote(contacted: bool) returns (req: Option<VoteReq>)
      requires Valid() && Durable() && currentTerm + 1 < U64
      modifies this, storage`state
      ensures Valid() && Durable()
      ensures req.Some? <==> !contacted && CanCampaign(old(State()), |peers|)
      ensures req.None? ==> State() == old(State())
      ensures req.Some? ==> (State(), req.value) == BeginVote(old(State()), id)
    {
      hide LogFile, LoadHard, LoadLog, LogFits, WfLog, LastIndex, LastTerm;
      if !round.PreVoteRound? || 1 + |round.granted| < Majority(|peers|) {
        return None;
      }
      if role == Leader || currentTerm + 1 != round.term || contacted {
        return None;
      }
      currentTerm := currentTerm + 1;
      role := Candidate;
      votedFor := id;
      round := VoteRound(currentTerm, {});
      PersistHardState();
      req := Some(VoteReq(false, currentTerm, id, LastIndex(log), LastTerm(log)));
    }

    method TakeLead() returns (won: bool)
      requires Valid() && Durable()
      modifies this`role, this`nextIndex, this`matchIndex
      ensures Valid() && Durable() && won == CanLead(old(State()), |peers|)
      ensures State() == if won then BecomeLeader(old(State()), PeerSet()) else old(State())
    {
      hide LogFile, LoadHard, LoadLog, LogFits, WfLog, HardFits, AllTo;
      won := round.VoteRound? && 1 + |round.granted| >= Majority(|peers|) && role == Candidate && currentTerm == round.term;
      if won {
        role := Leader;
        ResetPeers(LastIndex(log) + 1);
      }
    }

    method ResetPeers(next: nat)
      modifies this`nextIndex, this`matchIndex
      ensures nextIndex == old(nextIndex) + AllTo(PeerSet(), next)
      ensures matchIndex == old(matchIndex) + AllTo(PeerSet(), 0)
    {
      hide AllTo;
      ghost var done: set<Id> := {};
      NoneTo(old(nextIndex), next);
      NoneTo(old(matchIndex), 0);
      for i := 0 to |peers|
        invariant done == (set p | p in peers[..i])
        invariant nextIndex == old(nextIndex) + AllTo(done, next) && matchIndex == old(matchIndex) + AllTo(done, 0)
      {
        OneMoreTo(old(nextIndex), done, peers[i], next);
        OneMoreTo(old(matchIndex), done, peers[i], 0);
        assert peers[..i + 1] == peers[..i] + [peers[i]];
        done := done + {peers[i]};
        nextIndex := nextIndex[peers[i] := next];
        matchIndex := matchIndex[peers[i] := 0];
      }
      assert peers[..|peers|] == peers;
    }

    /** The request for one peer, built entry by entry. */
    method MakeRequest(to: Id, term: nat) returns (req: Option<AppendReq>)
      requires Valid() && NextFor(State(), to) >= 1
      ensures req.Some? <==> role == Leader && currentTerm == term
      ensures req.Some? ==> req.value == MakeAppend(State(), id, to)
    {
      if role != Leader || currentTerm != term {
        return None;
      }
      LastIsLength(log);
      var next := if to in nextIndex then nextIndex[to] else LastIndex(log) + 1;
      var entries: seq<LogEntry> := [];
      var i := next;
      while i <= LastIndex(log)
        invariant next <= i && (if next <= |log| then i <= |log| + 1 && entries == log[next - 1..i - 1] else entries == [] && i == next)
        decreases |log| + 1 - i
      {
        entries := entries + [log[i - 1]];
        i := i + 1;
      }
      req := Some(AppendReq(term, id, next - 1, TermAt(log, next - 1), entries, commitIndex));
    }

    method HandleAppendReply(from: Id, req: AppendReq, resp: AppendResp)
      requires Valid() && Durable() && resp.term < U64
      modifies this, storage`state
      ensures Valid() && Durable() && State() == OnAppendReply(old(State()), PeerSet(), from, req, resp)
    {
      hide LoadLog, LoadHard, LogFile, AdvanceCommit, LogFits, WfLog, HardFits;
      if currentTerm != req.term || role != Leader {
        return;
      }
      if resp.term > currentTerm {
        StepDownIfStale(resp.term);
        return;
      }
      if resp.success {
        var matched := req.prevIndex + |req.entries|;
        matchIndex := matchIndex[from := Max(if from in matchIndex then matchIndex[from] else 0, matched)];
        nextIndex := nextIndex[from := matchIndex[from] + 1];
        Advance();
      } else {
        nextIndex := nextIndex[from := if resp.conflictIndex == 0 then 1 else resp.conflictIndex];
      }
    }
  }

  ghost function PeersHolding(peers: seq<Id>, matchIndex: map<Id, nat>, n: nat): set<Id> {
    set p | p in peers && p in matchIndex && matchIndex[p] >= n
  }

  lemma OneMoreHolding(peers: seq<Id>, p: Id, matchIndex: map<Id, nat>, n: nat)
    requires p !in peers
    ensures |PeersHolding(peers + [p], matchIndex, n)| ==
            |PeersHolding(peers, matchIndex, n)| + if p in matchIndex && matchIndex[p] >= n then 1 else 0
  {
    var more := PeersHolding(peers + [p], matchIndex, n);
    if p in matchIndex && matchIndex[p] >= n {
      assert more == PeersHolding(peers, matchIndex, n) + {p};
    } else {
      assert more == PeersHolding(peers, matchIndex, n);
    }
  }

  /** The loop around Poll; `looks` is what the node is at each wake-up until the deadline. */
  method WaitApplied(looks: seq<NodeState>, index: nat, term: nat) returns (w: Waiting)
    ensures w == Await(looks, index, term)
  {
    hide Look;
    var i := 0;
    assert looks[0..] == looks;
    while i < |looks|
      invariant 0 <= i <= |looks| && Await(looks[i..], index, term) == Await(looks, index, term)
    {
      assert looks[i..][1..] == looks[i + 1..];
      w := Look(looks[i], index, term);
      if w != Undecided {
        return;
      }
      i := i + 1;
    }
    w := Undecided;
  }

  /** What taking the first entry leaves to be done. */
  lemma TakeOne(log: seq<LogEntry>, prev: nat, entries: seq<LogEntry>)
    requires WfLog(log) && prev <= |log| && Numbered(entries, prev) && entries != []
    ensures LastIndex(log) == |log| && Numbered(entries[1..], prev + 1)
    ensures var e := entries[0];
            if e.index <= LastIndex(log) && TermAt(log, e.index) == e.term then
              prev + 1 <= |log| && Splice(log, prev, entries) == Splice(log, prev + 1, entries[1..])
            else
              var t := (if e.index <= LastIndex(log) then log[..e.index - 1] else log) + [e];
              WfLog(t) && prev + 1 <= |t| && Splice(log, prev, entries) == Splice(t, prev + 1, entries[1..])
  {
  }

  lemma SpliceNone(log: seq<LogEntry>, prev: nat, entries: seq<LogEntry>)
    requires WfLog(log) && prev <= |log| && entries == []
    ensures Splice(log, prev, entries) == log
  {
  }

  lemma NoneTo(m: map<Id, nat>, v: nat)
    ensures m + AllTo({}, v) == m
  {
  }

  lemma OneMoreTo(m: map<Id, nat>, done: set<Id>, p: Id, v: nat)
    ensures (m + AllTo(done, v))[p := v] == m + AllTo(done + {p}, v)
  {
  }

  lemma AdvanceFrame(s: NodeState, peers: set<Id>, command: Str)
    requires WfLog(s.log) && s.role == Leader
    ensures Submit(s, peers, command).log == Appended(s, command).log && Submit(s, peers, command).role == Leader
  {
  }

  lemma LastIsLength(log: seq<LogEntry>)
    requires WfLog(log)
    ensures LastIndex(log) == |log|
  {
  }

  lemma {:induction false} SpliceFits(log: seq<LogEntry>, prev: nat, entries: seq<LogEntry>)
    requires WfLog(log) && prev <= |log| && Numbered(entries, prev) && LogFits(log) && LogFits(entries)
    ensures LogFits(Splice(log, prev, entries))
    decreases |entries|
  {
    if entries != [] {
      var e := entries[0];
      if e.index <= LastIndex(log) {
        if TermAt(log, e.index) == e.term {
          SpliceFits(log, prev + 1, entries[1..]);
        } else {
          SpliceFits(log[..e.index - 1] + [e], prev + 1, entries[1..]);
        }
      } else {
        SpliceFits(log + [e], prev + 1, entries[1..]);
      }
    }
  }

  lemma {:induction false} SetOfDistinct(ids: seq<Id>)
    requires forall i, j :: 0 <= i < j < |ids| ==> ids[i] != ids[j]
    ensures |set p | p in ids| == |ids|
  {
    if ids != [] {
      var n := |ids| - 1;
      SetOfDistinct(ids[..n]);
      assert ids == ids[..n] + [ids[n]];
      assert (set p | p in ids) == (set p | p in ids[..n]) + {ids[n]};
    }
  }
}
