/** Steps that leave the history alone: term adoption, crashes, replies, pre-votes and sends. */
module RaftQuietSteps {
  import opened ByteStrings
  import opened RaftTypes
  import opened RaftHandlers
  import opened RaftCluster
  import opened RaftInvariants
  import opened RaftFrame

  lemma StepDownOK(h: History, members: set<Id>, n: Id, s: NodeState, t: nat)
    requires NodeOK(h, members, n, s)
    ensures NodeOK(h, members, n, StepDown(s, t))
  {
    ExtendsRefl(h);
    PrefixGrows(h, h, members, s.log[..s.commitIndex], s.term, StepDown(s, t).term);
  }

  lemma FollowerOK(h: History, members: set<Id>, n: Id, s: NodeState)
    requires NodeOK(h, members, n, s)
    ensures NodeOK(h, members, n, s.(role := Follower))
  {
  }

  lemma RestartOK(h: History, members: set<Id>, n: Id, s: NodeState)
    requires NodeOK(h, members, n, s)
    ensures NodeOK(h, members, n, Restart(s))
  {
  }

  lemma PreVoteOK(h: History, members: set<Id>, n: Id, s: NodeState)
    requires NodeOK(h, members, n, s) && s.role != Leader
    ensures NodeOK(h, members, n, BeginPreVote(s, n).0)
  {
  }

  lemma VoteReplyOK(h: History, members: set<Id>, n: Id, s: NodeState, p: Packet)
    requires NodeOK(h, members, n, s) && p.VoteReply? && PacketOK(h, members, p) && p.vote.candidate == n
    ensures NodeOK(h, members, n, OnVoteReply(s, p.from, p.vote, p.voteResp))
  {
    StepDownOK(h, members, n, s, p.voteResp.term);
  }

  // ----- the leader's commit rule -----

  /** Committing by the count of match indices is committing by acknowledgements. */
  lemma CanCommitIsCommitted(h: History, members: set<Id>, n: Id, s: NodeState, k: nat)
    requires n in members && s.role == Leader && WfLog(s.log) && 1 <= k <= |s.log|
    requires RoleOK(h, members, n, s) && PeersOK(h, members, n, s)
    requires CanCommit(s, members - {n}, k)
    ensures Committed(h, members, s.term, k)
  {
    var peers := members - {n};
    var holders := set p | p in peers && p in s.matchIndex && s.matchIndex[p] >= k;
    assert |members| == |peers| + 1 by {
      assert members == peers + {n};
    }
    assert {n} + holders <= Acked(h, members, s.term, k);
    SubsetSize({n} + holders, Acked(h, members, s.term, k));
  }

  lemma CommitUpToOK(h: History, members: set<Id>, s: NodeState, k: nat)
    requires CommitOK(h, members, s) && s.commitIndex < k <= |s.log|
    requires CommittedPrefix(h, members, s.log[..k], s.term)
    ensures CommitOK(h, members, ApplyCommitted(s.(commitIndex := k)))
  {
    assert s.log[..s.commitIndex] + s.log[s.commitIndex..k] == s.log[..k];
  }

  lemma AdvanceCommitOK(h: History, members: set<Id>, n: Id, s: NodeState)
    requires n in members && s.role == Leader && WfLog(s.log) && NodeOK(h, members, n, s)
    ensures NodeOK(h, members, n, AdvanceCommit(s, members - {n}))
  {
    var k := HighestCommittable(s, members - {n}, LastIndex(s.log));
    if k > s.commitIndex {
      CanCommitIsCommitted(h, members, n, s, k);
      assert CommittedPrefixAt(h, members, s.log[..k], s.term, s.term, k);
      CommitUpToOK(h, members, s, k);
    }
  }

  lemma RecordMatchOK(h: History, members: set<Id>, n: Id, s: NodeState, p: Id, end: nat)
    requires NodeOK(h, members, n, s) && s.role == Leader && p in members - {n}
    requires end <= Ack(h, p, s.term) && end <= |s.log|
    ensures NodeOK(h, members, n, RecordMatch(s, p, end))
  {
  }

  lemma MatchOK(h: History, members: set<Id>, n: Id, s: NodeState, p: Id, end: nat)
    requires n in members && WfLog(s.log) && NodeOK(h, members, n, s) && s.role == Leader && p in members - {n}
    requires end <= Ack(h, p, s.term) && end <= |s.log|
    ensures NodeOK(h, members, n, OnMatch(s, members - {n}, p, end))
  {
    RecordMatchOK(h, members, n, s, p, end);
    AdvanceCommitOK(h, members, n, RecordMatch(s, p, end));
  }

  lemma BackUpOK(h: History, members: set<Id>, n: Id, s: NodeState, p: Id, next: nat)
    requires NodeOK(h, members, n, s) && s.role == Leader
    requires 1 <= next <= |s.log| + 1
    ensures NodeOK(h, members, n, s.(nextIndex := s.nextIndex[p := next]))
  {
  }

  lemma AppendReplyOK(h: History, members: set<Id>, n: Id, s: NodeState, p: Packet, r: NodeState)
    requires n in members && WfLog(s.log) && NodeOK(h, members, n, s)
    requires p.AppendReply? && PacketOK(h, members, p) && p.append.leader == n
    requires r == OnAppendReply(s, members - {n}, p.from, p.append, p.appendResp)
    ensures NodeOK(h, members, n, r)
  {
    hide OnMatch;
    var req, resp := p.append, p.appendResp;
    if s.term == req.term && s.role == Leader {
      if resp.term > s.term {
        assert r == StepDown(s, resp.term);
        StepDownOK(h, members, n, s, resp.term);
      } else if resp.success {
        assert r == OnMatch(s, members - {n}, p.from, req.prevIndex + |req.entries|);
        MatchOK(h, members, n, s, p.from, req.prevIndex + |req.entries|);
      } else {
        assert r == s.(nextIndex := s.nextIndex[p.from := resp.conflictIndex]);
        BackUpOK(h, members, n, s, p.from, resp.conflictIndex);
      }
    }
  }
}
