/**
  A run in which WaitApplied says Ok for a command that was never applied: the term that it is given was
  read before the node was elected.
 */
module RaftStaleTerm {
  import opened ByteStrings
  import opened RaftTypes
  import opened RaftHandlers
  import opened RaftCluster
  import opened RaftSafety

  // ----- a run, one step at a time -----

  datatype Run = Run(states: seq<Cluster>, acts: seq<Action>)

  ghost predicate Valid(r: Run) {
    IsRun(r.states, r.acts)
  }

  function Now(r: Run): Cluster
    requires |r.states| == |r.acts| + 1
  {
    r.states[|r.acts|]
  }

  /** One run goes on from another. */
  predicate GoesOn(r: Run, s: Run) {
    r.states <= s.states && r.acts <= s.acts
  }

  ghost predicate Started(r: Run) {
    Valid(r) && |r.states| == |r.acts| + 1 && Now(r).nodes.Keys == Now(r).members
  }

  /** s is r and k more steps. */
  ghost predicate Next(r: Run, s: Run, k: nat) {
    Started(r) && Started(s) && GoesOn(r, s) && |s.acts| == |r.acts| + k
  }

  lemma IsWf(r: Run)
    requires Started(r)
    ensures WfCluster(Now(r))
  {
    LastIsWf(r.states, r.acts);
  }

  lemma Then(r: Run, a: Action) returns (s: Run)
    requires Started(r) && WfCluster(Now(r)) && Guard(Now(r), a)
    ensures Next(r, s, 1) && s.acts[|r.acts|] == a && Enabled(Now(r), a) && Now(s) == Apply(Now(r), a)
  {
    hide IsRun, Apply, Guard, Safe, WfLog;
    RunGoesOn(r.states, r.acts, a);
    s := Run(r.states + [Apply(Now(r), a)], r.acts + [a]);
    LastIsWf(s.states, s.acts);
  }

  lemma Chain(r: Run, s: Run, t: Run, j: nat, k: nat)
    requires Next(r, s, j) && Next(s, t, k)
    ensures Next(r, t, j + k)
  {
    hide IsRun;
  }

  /** The nodes of the example, three of them. */
  ghost predicate Three(c: Cluster, n: Id, m: Id, v: Id) {
    n != m && n != v && m != v && NOBODY !in {n, m, v} && c.members == {n, m, v}
  }

  /** Only node n and the packets changed; no packet was lost. */
  ghost predicate OnlyAt(c: Cluster, d: Cluster, n: Id, x: NodeState) {
    d.members == c.members && n in c.members && d.nodes == c.nodes[n := x] && c.net <= d.net
  }

  // ----- the steps, each as what it changes -----

  function Ballot(x: NodeState, me: Id, pre: bool): VoteReq {
    VoteReq(pre, x.term + 1, me, LastIndex(x.log), LastTerm(x.log))
  }

  lemma AsksPre(r: Run, n: Id) returns (s: Run)
    requires Started(r) && n in Now(r).members && Now(r).nodes[n].role != Leader
    ensures Next(r, s, 1) && var x := Now(r).nodes[n];
            OnlyAt(Now(r), Now(s), n, x.(round := PreVoteRound(x.term + 1, {}))) &&
            forall p :: p in Peers(Now(r), n) ==> VoteRequest(p, Ballot(x, n, true)) in Now(s).net
  {
    hide IsRun, WfLog;
    IsWf(r);
    s := Then(r, PreVoteAt(n));
  }

  lemma Asks(r: Run, n: Id) returns (s: Run)
    requires Started(r) && n in Now(r).members && CanCampaign(Now(r).nodes[n], |Peers(Now(r), n)|)
    ensures Next(r, s, 1) && var x := Now(r).nodes[n];
            OnlyAt(Now(r), Now(s), n, x.(term := x.term + 1, role := Candidate, votedFor := n, round := VoteRound(x.term + 1, {}))) &&
            forall p :: p in Peers(Now(r), n) ==> VoteRequest(p, Ballot(x, n, false)) in Now(s).net
  {
    hide IsRun, WfLog;
    IsWf(r);
    s := Then(r, CampaignAt(n));
  }

  lemma Answers(r: Run, v: Id, req: VoteReq) returns (s: Run)
    requires Started(r) && v in Now(r).members && VoteRequest(v, req) in Now(r).net
    ensures Next(r, s, 1) && OnlyAt(Now(r), Now(s), v, HandleVote(Now(r).nodes[v], req, true).0) &&
            VoteReply(v, req, HandleVote(Now(r).nodes[v], req, true).1) in Now(s).net
  {
    hide IsRun, WfLog, HandleVote;
    IsWf(r);
    s := Then(r, HandleVoteAt(v, VoteRequest(v, req), true));
  }

  lemma Hears(r: Run, n: Id, v: Id, req: VoteReq, resp: VoteResp) returns (s: Run)
    requires Started(r) && n in Now(r).members && req.candidate == n && VoteReply(v, req, resp) in Now(r).net
    ensures Next(r, s, 1) && OnlyAt(Now(r), Now(s), n, OnVoteReply(Now(r).nodes[n], v, req, resp))
  {
    hide IsRun, WfLog, OnVoteReply;
    IsWf(r);
    s := Then(r, VoteReplyAt(n, VoteReply(v, req, resp)));
  }

  lemma Leads(r: Run, n: Id) returns (s: Run)
    requires Started(r) && n in Now(r).members && CanLead(Now(r).nodes[n], |Peers(Now(r), n)|)
    ensures Next(r, s, 1) && OnlyAt(Now(r), Now(s), n, BecomeLeader(Now(r).nodes[n], Peers(Now(r), n)))
  {
    hide IsRun, WfLog, BecomeLeader;
    IsWf(r);
    s := Then(r, LeadAt(n));
  }

  lemma Submits(r: Run, n: Id, command: Str) returns (s: Run)
    requires Started(r) && n in Now(r).members && Now(r).nodes[n].role == Leader
    ensures Next(r, s, 1) && s.acts[|r.acts|] == SubmitAt(n, command)
    ensures OnlyAt(Now(r), Now(s), n, Submit(Now(r).nodes[n], Peers(Now(r), n), command))
  {
    hide IsRun, WfLog, Submit;
    IsWf(r);
    s := Then(r, SubmitAt(n, command));
  }

  lemma Sends(r: Run, n: Id, to: Id) returns (s: Run)
    requires Started(r) && n in Now(r).members && to in Peers(Now(r), n) && Now(r).nodes[n].role == Leader
    ensures Next(r, s, 1) && OnlyAt(Now(r), Now(s), n, Now(r).nodes[n])
    ensures NextFor(Now(r).nodes[n], to) >= 1 && AppendRequest(to, MakeAppend(Now(r).nodes[n], n, to)) in Now(s).net
  {
    hide IsRun, WfLog, MakeAppend;
    IsWf(r);
    s := Then(r, ReplicateAt(n, to));
  }

  lemma Receives(r: Run, v: Id, req: AppendReq) returns (s: Run)
    requires Started(r) && v in Now(r).members && AppendRequest(v, req) in Now(r).net
    ensures WfLog(Now(r).nodes[v].log) && Numbered(req.entries, req.prevIndex)
    ensures Next(r, s, 1) && OnlyAt(Now(r), Now(s), v, HandleAppend(Now(r).nodes[v], req).0) &&
            AppendReply(v, req, HandleAppend(Now(r).nodes[v], req).1) in Now(s).net
  {
    hide IsRun, HandleAppend;
    IsWf(r);
    s := Then(r, HandleAppendAt(v, AppendRequest(v, req)));
  }

  lemma HearsAppend(r: Run, n: Id, v: Id, req: AppendReq, resp: AppendResp) returns (s: Run)
    requires Started(r) && n in Now(r).members && req.leader == n && AppendReply(v, req, resp) in Now(r).net
    ensures WfLog(Now(r).nodes[n].log)
    ensures Next(r, s, 1) && OnlyAt(Now(r), Now(s), n, OnAppendReply(Now(r).nodes[n], Peers(Now(r), n), v, req, resp))
  {
    hide IsRun, OnAppendReply;
    IsWf(r);
    s := Then(r, AppendReplyAt(n, AppendReply(v, req, resp)));
  }

  // ----- an election -----

  /** Voter y grants x a vote in the next term. */
  ghost predicate Willing(x: NodeState, n: Id, y: NodeState) {
    && x.role != Leader && y.role != Leader && y.term <= x.term
    && UpToDate(Ballot(x, n, true), y.log) && UpToDate(Ballot(x, n, false), y.log)
  }

  function Winner(x: NodeState, n: Id, m: Id, v: Id): NodeState {
    BecomeLeader(x.(term := x.term + 1, role := Candidate, votedFor := n, round := VoteRound(x.term + 1, {v})), {m, v})
  }

  function Voter(x: NodeState, n: Id, y: NodeState): NodeState {
    y.(term := x.term + 1, votedFor := n, role := Follower)
  }

  lemma PreVoteRound1(x: NodeState, n: Id, y: NodeState, v: Id)
    requires Willing(x, n, y)
    ensures HandleVote(y, Ballot(x, n, true), true) == (y, VoteResp(y.term, true))
    ensures OnVoteReply(x.(round := PreVoteRound(x.term + 1, {})), v, Ballot(x, n, true), VoteResp(y.term, true)) ==
            x.(round := PreVoteRound(x.term + 1, {v}))
    ensures CanCampaign(x.(round := PreVoteRound(x.term + 1, {v})), 2)
  {
    hide UpToDate;
    assert {} + {v} == {v};
  }

  lemma VoteRound1(x: NodeState, n: Id, y: NodeState, v: Id)
    requires Willing(x, n, y)
    ensures HandleVote(y, Ballot(x, n, false), true) == (Voter(x, n, y), VoteResp(x.term + 1, true))
    ensures var z := x.(term := x.term + 1, role := Candidate, votedFor := n, round := VoteRound(x.term + 1, {}));
            && OnVoteReply(z, v, Ballot(x, n, false), VoteResp(x.term + 1, true)) == z.(round := VoteRound(x.term + 1, {v}))
            && CanLead(z.(round := VoteRound(x.term + 1, {v})), 2)
  {
    hide UpToDate;
    assert {} + {v} == {v};
  }

  /** Node n asks v whether it would vote for it, and hears that it would. */
  lemma PreVoted(r: Run, n: Id, m: Id, v: Id) returns (s: Run)
    requires Started(r) && Three(Now(r), n, m, v) && Willing(Now(r).nodes[n], n, Now(r).nodes[v])
    ensures Next(r, s, 3) && var x := Now(r).nodes[n]; OnlyAt(Now(r), Now(s), n, x.(round := PreVoteRound(x.term + 1, {v})))
  {
    hide Valid, GoesOn, WfCluster, HandleVote, OnVoteReply, CanCampaign, UpToDate, LastIndex, LastTerm;
    var c := Now(r);
    var x, y := c.nodes[n], c.nodes[v];
    PreVoteRound1(x, n, y, v);
    var s1 := AsksPre(r, n);
    var s2 := Answers(s1, v, Ballot(x, n, true));
    s := Hears(s2, n, v, Ballot(x, n, true), VoteResp(y.term, true));
    Chain(r, s1, s2, 1, 1);
    Chain(r, s2, s, 2, 1);
  }

  /** Node n campaigns and gets the vote of v. */
  lemma Voted(r: Run, n: Id, m: Id, v: Id, x: NodeState) returns (s: Run)
    requires Started(r) && Three(Now(r), n, m, v) && Willing(x, n, Now(r).nodes[v])
    requires Now(r).nodes[n] == x.(round := PreVoteRound(x.term + 1, {v}))
    ensures Next(r, s, 4) && var c, d := Now(r), Now(s);
            && d.members == c.members && c.net <= d.net && VoteRequest(m, Ballot(x, n, false)) in d.net
            && d.nodes == c.nodes[n := Winner(x, n, m, v)][v := Voter(x, n, c.nodes[v])]
  {
    hide Valid, GoesOn, WfCluster, HandleVote, OnVoteReply, CanCampaign, CanLead, UpToDate, LastIndex, LastTerm, BecomeLeader;
    var c := Now(r);
    var y := c.nodes[v];
    assert Peers(c, n) == {m, v};
    PreVoteRound1(x, n, y, v);
    VoteRound1(x, n, y, v);
    var s1 := Asks(r, n);
    var s2 := Answers(s1, v, Ballot(x, n, false));
    var s3 := Hears(s2, n, v, Ballot(x, n, false), VoteResp(x.term + 1, true));
    assert Peers(Now(s3), n) == {m, v};
    s := Leads(s3, n);
    Chain(r, s1, s2, 1, 1);
    Chain(r, s2, s3, 2, 1);
    Chain(r, s3, s, 3, 1);
  }

  /** Node n is elected by v; m hears nothing of it. */
  lemma Elected(r: Run, n: Id, m: Id, v: Id) returns (s: Run)
    requires Started(r) && Three(Now(r), n, m, v) && Willing(Now(r).nodes[n], n, Now(r).nodes[v])
    ensures Next(r, s, 7) && var c, d := Now(r), Now(s); var x := c.nodes[n];
            && d.members == c.members && c.net <= d.net && VoteRequest(m, Ballot(x, n, false)) in d.net
            && d.nodes == c.nodes[n := Winner(x, n, m, v)][v := Voter(x, n, c.nodes[v])]
  {
    hide Valid, GoesOn, Willing, Winner, Voter, Ballot;
    var x := Now(r).nodes[n];
    var s1 := PreVoted(r, n, m, v);
    s := Voted(s1, n, m, v, x);
    Chain(r, s1, s, 3, 4);
  }

  // ----- entries -----

  lemma {:induction false} NobodyHolds(x: NodeState, peers: set<Id>, k: nat)
    requires Majority(|peers|) > 1 && x.commitIndex == 0 && forall p :: p in peers && p in x.matchIndex ==> x.matchIndex[p] == 0
    ensures HighestCommittable(x, peers, k) == 0
  {
    if k > 0 {
      assert (set p | p in peers && p in x.matchIndex && x.matchIndex[p] >= k) == {};
      NobodyHolds(x, peers, k - 1);
    }
  }

  /** A new leader's first entry is not committed yet. */
  lemma Appends(r: Run, n: Id, m: Id, v: Id, x: NodeState, command: Str) returns (s: Run)
    requires Started(r) && Three(Now(r), n, m, v) && Now(r).nodes[n] == Winner(x, n, m, v) && x.commitIndex == 0
    ensures Next(r, s, 1) && s.acts[|r.acts|] == SubmitAt(n, command)
    ensures OnlyAt(Now(r), Now(s), n, Appended(Winner(x, n, m, v), command))
  {
    hide Valid, GoesOn, WfLog, HighestCommittable, LastIndex, WfCluster;
    IsWf(r);
    LogIsWf(Now(r), n);
    s := Submits(r, n, command);
    assert Peers(Now(r), n) == {m, v};
    NobodyHolds(Appended(Winner(x, n, m, v), command), {m, v}, LastIndex(Appended(Winner(x, n, m, v), command).log));
  }

  lemma LogIsWf(c: Cluster, n: Id)
    requires WfCluster(c) && n in c.members
    ensures WfLog(c.nodes[n].log)
  {
  }

  // ----- the run -----

  /** The states of the three nodes. */
  ghost predicate Trio(r: Run, n: Id, m: Id, v: Id, x: NodeState, y: NodeState, z: NodeState) {
    Started(r) && Three(Now(r), n, m, v) && Now(r).nodes[n] == x && Now(r).nodes[m] == y && Now(r).nodes[v] == z
  }

  function Nothing(n: Id, m: Id, v: Id): Run {
    var members := {n, m, v};
    Run([Cluster(members, map k | k in members :: FreshNode(), {})], [])
  }

  lemma NothingStarted(n: Id, m: Id, v: Id)
    requires n != m && n != v && m != v && NOBODY !in {n, m, v}
    ensures Trio(Nothing(n, m, v), n, m, v, FreshNode(), FreshNode(), FreshNode())
  {
  }

  function Old(n: Id, m: Id, v: Id): NodeState {
    Winner(FreshNode(), m, v, n)
  }

  function First(n: Id, m: Id): NodeState {
    Voter(FreshNode(), m, FreshNode())
  }

  /** Node m leads term 1 by the vote of n, and appends a command that it does not send. */
  lemma Opening(n: Id, m: Id, v: Id, a: Str) returns (r: Run)
    requires n != m && n != v && m != v && NOBODY !in {n, m, v}
    ensures Trio(r, n, m, v, First(n, m), Appended(Old(n, m, v), a), FreshNode())
  {
    hide Valid, GoesOn, WfCluster, Winner, Voter, Appended, FreshNode;
    var r0 := Nothing(n, m, v);
    NothingStarted(n, m, v);
    FreshWilling(m);
    var r1 := Elected(r0, m, v, n);
    r := Appends(r1, m, v, n, FreshNode(), a);
  }

  lemma FreshWilling(m: Id)
    ensures Willing(FreshNode(), m, FreshNode()) && FreshNode().commitIndex == 0
  {
  }

  lemma FirstWilling(n: Id, m: Id)
    ensures Willing(First(n, m), n, FreshNode()) && First(n, m).commitIndex == 0 && First(n, m).term == 1
  {
  }

  /** Node n, in term 1, wins term 2 by the vote of v, and appends the caller's command. */
  lemma Middle(r: Run, n: Id, m: Id, v: Id, y: NodeState, x: Str) returns (s: Run)
    requires Trio(r, n, m, v, First(n, m), y, FreshNode())
    ensures Next(r, s, 8) && s.acts[|r.acts| + 7] == SubmitAt(n, x)
    ensures s.states[|r.acts| + 7].members == {n, m, v} && n in s.states[|r.acts| + 7].nodes
    ensures s.states[|r.acts| + 7].nodes[n] == Winner(First(n, m), n, m, v)
    ensures Trio(s, n, m, v, Appended(Winner(First(n, m), n, m, v), x), y, Voter(First(n, m), n, FreshNode()))
    ensures VoteRequest(m, Ballot(First(n, m), n, false)) in Now(s).net
  {
    hide Valid, WfCluster, Winner, Voter, Appended, FreshNode, First, Ballot;
    FirstWilling(n, m);
    var r1 := Elected(r, n, m, v);
    s := Appends(r1, n, m, v, First(n, m), x);
    Chain(r, r1, s, 7, 1);
  }

  function Back(n: Id, m: Id, v: Id, a: Str): NodeState {
    Appended(Old(n, m, v), a).(term := 2, votedFor := NOBODY, role := Follower)
  }

  /** Node m hears of term 2 and refuses its vote, for its log is longer; v would vote for it in term 3. */
  lemma BackWilling(n: Id, m: Id, v: Id, a: Str)
    ensures HandleVote(Appended(Old(n, m, v), a), Ballot(First(n, m), n, false), true).0 == Back(n, m, v, a)
    ensures Willing(Back(n, m, v, a), m, Voter(First(n, m), n, FreshNode())) && Back(n, m, v, a).commitIndex == 0
  {
  }

  /** Node m wins term 3 by the vote of v, and appends a second command. */
  lemma Return(r: Run, n: Id, m: Id, v: Id, x: NodeState, a: Str, b: Str) returns (s: Run)
    requires Trio(r, n, m, v, x, Appended(Old(n, m, v), a), Voter(First(n, m), n, FreshNode()))
    requires VoteRequest(m, Ballot(First(n, m), n, false)) in Now(r).net
    ensures Next(r, s, 9)
    ensures Now(s).members == {n, m, v} && Now(s).nodes[n] == x && Now(s).nodes[m] == Appended(Winner(Back(n, m, v, a), m, n, v), b)
  {
    hide Valid, WfCluster, Winner, Voter, Appended, FreshNode, First, Ballot, Back, HandleVote, Willing, Old;
    BackWilling(n, m, v, a);
    var r1 := Answers(r, m, Ballot(First(n, m), n, false));
    var r2 := Elected(r1, m, n, v);
    s := Appends(r2, m, n, v, Back(n, m, v, a), b);
    Chain(r, r1, r2, 1, 7);
    Chain(r, r2, s, 8, 1);
  }

  // ----- the old entry is committed over the new one -----

  /** What the leader of term 3 and the proposer look like at the end. */
  ghost predicate Facing(x: NodeState, y: NodeState, n: Id, e: LogEntry, a: Str, b: Str) {
    && x.term == 2 && x.role == Leader && x.log == [e] && e.term == 2 && e.index == 1 && x.commitIndex == 0 && x.applied == []
    && y.term == 3 && y.role == Leader && y.log == [LogEntry(1, 1, a), LogEntry(3, 2, b)] && y.commitIndex == 0 && y.applied == []
    && n in y.nextIndex && y.nextIndex[n] == 2 && n in y.matchIndex && y.matchIndex[n] == 0
  }

  lemma TheyFace(n: Id, m: Id, v: Id, a: Str, b: Str, x: Str)
    requires n != m && n != v && m != v
    ensures Facing(Appended(Winner(First(n, m), n, m, v), x), Appended(Winner(Back(n, m, v, a), m, n, v), b), n, LogEntry(2, 1, x), a, b)
  {
  }

  function Both(a: Str, b: Str): seq<LogEntry> {
    [LogEntry(1, 1, a), LogEntry(3, 2, b)]
  }

  /** The first request is refused, and the leader backs up. */
  lemma Refusal(x: NodeState, y: NodeState, n: Id, m: Id, peers: set<Id>, e: LogEntry, a: Str, b: Str)
    requires Facing(x, y, n, e, a, b)
    ensures var req := AppendReq(3, m, 1, 1, [LogEntry(3, 2, b)], 0);
            && MakeAppend(y, m, n) == req && Numbered(req.entries, 1)
            && HandleAppend(x, req) == (x.(term := 3, votedFor := NOBODY, role := Follower), AppendResp(3, false, 1))
            && OnAppendReply(y, peers, n, req, AppendResp(3, false, 1)) == y.(nextIndex := y.nextIndex[n := 1])
  {
    assert y.log[1..] == [LogEntry(3, 2, b)];
  }

  lemma SplicedBoth(e: LogEntry, a: Str, b: Str)
    requires e.term == 2 && e.index == 1
    ensures WfLog([e]) && Numbered(Both(a, b), 0) && Splice([e], 0, Both(a, b)) == Both(a, b)
  {
    var e1, e2 := LogEntry(1, 1, a), LogEntry(3, 2, b);
    assert Both(a, b)[1..] == [e2] && [e2][1..] == [];
    assert [e][..0] + [e1] == [e1] && [e1] + [e2] == Both(a, b);
    assert Splice([e1, e2], 2, []) == [e1, e2];
    assert Splice([e1], 1, [e2]) == [e1, e2];
  }

  /** The second request replaces the proposer's entry. */
  lemma Overwrite(x: NodeState, y: NodeState, n: Id, m: Id, e: LogEntry, a: Str, b: Str)
    requires Facing(x, y, n, e, a, b)
    ensures var req := AppendReq(3, m, 0, 0, Both(a, b), 0); var x' := x.(term := 3, votedFor := NOBODY, role := Follower);
            && MakeAppend(y.(nextIndex := y.nextIndex[n := 1]), m, n) == req && WfLog([e]) && Numbered(Both(a, b), 0)
            && HandleAppend(x', req) == (x'.(log := Both(a, b)), AppendResp(3, true, 0))
  {
    hide Splice;
    SplicedBoth(e, a, b);
    assert y.log[0..] == Both(a, b);
  }

  /** With the proposer's acknowledgement the leader commits both entries. */
  lemma Commits(y: NodeState, n: Id, m: Id, v: Id, e: LogEntry, a: Str, b: Str, x: NodeState)
    requires Facing(x, y, n, e, a, b) && n != v
    ensures WfLog(Both(a, b))
    ensures var req := AppendReq(3, m, 0, 0, Both(a, b), 0); var y' := y.(nextIndex := y.nextIndex[n := 1]);
            var y'' := OnAppendReply(y', {n, v}, n, req, AppendResp(3, true, 0));
            && y''.role == Leader && NextFor(y'', n) == 3 && MakeAppend(y'', m, n) == AppendReq(3, m, 2, 3, [], 2)
  {
    var y' := RecordMatch(y.(nextIndex := y.nextIndex[n := 1]), n, 2);
    var holders := set p | p in {n, v} && p in y'.matchIndex && y'.matchIndex[p] >= 2;
    OneHolder(holders, n);
    assert CanCommit(y', {n, v}, 2);
  }

  lemma OneHolder(s: set<Id>, n: Id)
    requires n in s
    ensures |s| >= 1
  {
    assert s == {n} + (s - {n});
  }

  /** The third request tells the proposer that both entries are committed. */
  lemma Applies(x: NodeState, m: Id, a: Str, b: Str)
    requires x.term == 3 && x.log == Both(a, b) && x.commitIndex == 0 && x.applied == []
    ensures var req := AppendReq(3, m, 2, 3, [], 2);
            && WfLog(x.log) && Numbered(req.entries, 2)
            && HandleAppend(x, req).0.applied == Both(a, b) == HandleAppend(x, req).0.log
  {
    assert Both(a, b)[0..2] == Both(a, b);
  }

  lemma Replaced(r: Run, n: Id, m: Id, v: Id, x: NodeState, y: NodeState, e: LogEntry, a: Str, b: Str) returns (s: Run)
    requires Started(r) && Three(Now(r), n, m, v) && Now(r).nodes[n] == x && Now(r).nodes[m] == y && Facing(x, y, n, e, a, b)
    ensures Next(r, s, 5) && var y' := y.(nextIndex := y.nextIndex[n := 1]);
            var x' := x.(term := 3, votedFor := NOBODY, role := Follower, log := Both(a, b));
            && Now(s).members == {n, m, v} && Now(s).nodes[n] == x' && Now(s).nodes[m] == y'
            && AppendReply(n, AppendReq(3, m, 0, 0, Both(a, b), 0), AppendResp(3, true, 0)) in Now(s).net
  {
    hide Valid, GoesOn, WfCluster, HandleAppend, OnAppendReply, MakeAppend, Both, WfLog, Numbered;
    Refusal(x, y, n, m, Peers(Now(r), m), e, a, b);
    Overwrite(x, y, n, m, e, a, b);
    var req := AppendReq(3, m, 1, 1, [LogEntry(3, 2, b)], 0);
    var s1 := Sends(r, m, n);
    var s2 := Receives(s1, n, req);
    var s3 := HearsAppend(s2, m, n, req, AppendResp(3, false, 1));
    var s4 := Sends(s3, m, n);
    s := Receives(s4, n, AppendReq(3, m, 0, 0, Both(a, b), 0));
    Chain(r, s1, s2, 1, 1);
    Chain(r, s2, s3, 2, 1);
    Chain(r, s3, s4, 3, 1);
    Chain(r, s4, s, 4, 1);
  }

  lemma Ending(r: Run, n: Id, m: Id, v: Id, x: NodeState, y: NodeState, e: LogEntry, a: Str, b: Str) returns (s: Run)
    requires Started(r) && Three(Now(r), n, m, v) && Now(r).nodes[n] == x && Now(r).nodes[m] == y && Facing(x, y, n, e, a, b)
    ensures Next(r, s, 8) && n in Now(s).members && Now(s).nodes[n].applied == Both(a, b) == Now(s).nodes[n].log
  {
    hide Valid, GoesOn, WfCluster, HandleAppend, OnAppendReply, MakeAppend, Both, WfLog, Numbered;
    var s1 := Replaced(r, n, m, v, x, y, e, a, b);
    Commits(y, n, m, v, e, a, b, x);
    assert Peers(Now(s1), m) == {n, v};
    var s2 := HearsAppend(s1, m, n, AppendReq(3, m, 0, 0, Both(a, b), 0), AppendResp(3, true, 0));
    var s3 := Sends(s2, m, n);
    Applies(Now(s1).nodes[n], m, a, b);
    s := Receives(s3, n, AppendReq(3, m, 2, 3, [], 2));
    Chain(r, s1, s2, 5, 1);
    Chain(r, s2, s3, 6, 1);
    Chain(r, s3, s, 7, 1);
  }

  /**
    In every group of three there is a run in which a caller reads term 1 of a node, proposes a command
    there after the node has won term 2, and WaitApplied says Ok for term 1, although another command was
    applied at the proposed index.
   */
  lemma StaleTermMisleads(n: Id, m: Id, v: Id, a: Str, b: Str, x: Str) returns (states: seq<Cluster>, acts: seq<Action>, h: nat, i: nat, j: nat)
    requires n != m && n != v && m != v && NOBODY !in {n, m, v}
    ensures IsRun(states, acts) && h <= i < |acts| && i < j < |states| && acts[i] == SubmitAt(n, x)
    ensures n in states[h].nodes && n in states[i].nodes && n in states[j].nodes
    ensures Look(states[j].nodes[n], Proposed(states, acts, i).index, states[h].nodes[n].term) == Applied
    ensures |states[j].nodes[n].applied| >= 1 && states[j].nodes[n].applied[0] == LogEntry(1, 1, a)
    ensures Proposed(states, acts, i) == LogEntry(2, 1, x)
  {
    hide IsRun, WfCluster, Winner, Voter, Appended, FreshNode, First, Ballot, Back, Old, Facing;
    var r1 := Opening(n, m, v, a);
    var r2 := Middle(r1, n, m, v, Appended(Old(n, m, v), a), x);
    var r3 := Return(r2, n, m, v, Appended(Winner(First(n, m), n, m, v), x), a, b);
    TheyFace(n, m, v, a, b, x);
    var r4 := Ending(r3, n, m, v, Now(r3).nodes[n], Now(r3).nodes[m], LogEntry(2, 1, x), a, b);
    Chain(r1, r2, r3, 8, 9);
    Chain(r1, r3, r4, 17, 8);
    states, acts, h, i, j := r4.states, r4.acts, |r1.acts|, |r1.acts| + 7, |r4.acts|;
    StampedAt(n, m, v, x);
  }

  lemma StampedAt(n: Id, m: Id, v: Id, x: Str)
    ensures First(n, m).term == 1
    ensures Winner(First(n, m), n, m, v).term == 2 && LastIndex(Winner(First(n, m), n, m, v).log) == 0
  {
  }
}
