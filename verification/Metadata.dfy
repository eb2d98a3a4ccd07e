/** The metadata repository: membership, placement and the location of every object. */
module Metadata {
  import opened ByteStrings
  import opened Wire
  import opened HashRing

  datatype Health = Joining | Healthy | Suspect | Unavailable | Recovering

  datatype NodeInfo = NodeInfo(id: Str, address: Str, state: Health, capacity: nat, heartbeat: int)

  /** `replicas` are the nodes that hold this version; a deleted location is a tombstone. */
  datatype ObjectLocation = ObjectLocation(key: Str, version: nat, checksum: Str, size: nat, deleted: bool, replicas: seq<Str>)

  /** What a repository was built with. */
  datatype Placement = Placement(hash: Str -> Pos, vnodes: nat)

  /** Everything a repository holds: the membership table, the ring with its members, and the objects. */
  datatype Repo = Repo(nodes: seq<NodeInfo>, ring: seq<Slot>, members: seq<Str>, objects: map<Str, ObjectLocation>)

  const EMPTY_REPO := Repo([], [], [], map[])

  /** What becomes of an update that a client asks for: done and confirmed, not done, or done but not confirmed. */
  datatype Reply = Heard | Refused | Unheard

  // ----- the operations on values -----

  /** The first table row with this id, or the table's length. */
  function FindNode(nodes: seq<NodeInfo>, id: Str): (r: nat)
    ensures r <= |nodes| && (r < |nodes| ==> nodes[r].id == id)
    ensures forall k :: 0 <= k < r ==> nodes[k].id != id
  {
    if nodes == [] || nodes[0].id == id then 0 else 1 + FindNode(nodes[1..], id)
  }

  /** A known id is updated in place; a new one is appended and joins the ring, unless it is on it. */
  function WithNode(p: Placement, repo: Repo, node: NodeInfo): Repo
    requires Ordered(repo.ring)
  {
    var k := FindNode(repo.nodes, node.id);
    if k < |repo.nodes| then
      repo.(nodes := repo.nodes[k := node])
    else if node.id in repo.members then
      repo.(nodes := repo.nodes + [node])
    else
      repo.(nodes := repo.nodes + [node],
            ring := Placed(p.hash, repo.ring, node.id, p.vnodes), members := repo.members + [node.id])
  }

  function NodeById(nodes: seq<NodeInfo>, id: Str): Option<NodeInfo> {
    var k := FindNode(nodes, id);
    if k < |nodes| then Some(nodes[k]) else None
  }

  lemma FoundFirst(nodes: seq<NodeInfo>, id: Str, k: nat)
    requires k <= |nodes| && (k < |nodes| ==> nodes[k].id == id) && forall i :: 0 <= i < k ==> nodes[i].id != id
    ensures FindNode(nodes, id) == k
  {
    hide FindNode;
  }

  /** Adding a node changes the row of its id only, and a known id keeps every placement. */
  lemma WithNodeTable(p: Placement, repo: Repo, node: NodeInfo, id: Str)
    requires Ordered(repo.ring)
    ensures var r := WithNode(p, repo, node);
            && NodeById(r.nodes, id) == (if id == node.id then Some(node) else NodeById(repo.nodes, id))
            && (NodeById(repo.nodes, node.id).Some? ==> r.ring == repo.ring && r.members == repo.members)
            && r.objects == repo.objects
  {
    hide FindNode, Placed;
    var r, k := WithNode(p, repo, node), FindNode(repo.nodes, node.id);
    if id == node.id {
      FoundFirst(r.nodes, id, k);
    } else {
      var m := FindNode(repo.nodes, id);
      if m < |repo.nodes| {
        FoundFirst(r.nodes, id, m);
      } else {
        FoundFirst(r.nodes, id, |r.nodes|);
      }
    }
  }

  /** Every node of the table is a member of the ring. */
  predicate Joined(repo: Repo) {
    forall k :: 0 <= k < |repo.nodes| ==> repo.nodes[k].id in repo.members
  }

  /** Adding a node makes its id a member, and no member leaves. */
  lemma WithNodeJoins(p: Placement, repo: Repo, node: NodeInfo)
    requires Ordered(repo.ring) && Joined(repo)
    ensures var r := WithNode(p, repo, node);
            Joined(r) && node.id in r.members && forall id :: id in repo.members ==> id in r.members
  {
    hide FindNode, Placed, Ordered;
  }

  function WithObject(repo: Repo, loc: ObjectLocation): Repo {
    repo.(objects := repo.objects[loc.key := loc])
  }

  predicate Live(repo: Repo, key: Str) {
    key in repo.objects && !repo.objects[key].deleted
  }

  /** A removed object leaves a tombstone without replicas. */
  function WithoutObject(repo: Repo, key: Str): Repo {
    if Live(repo, key) then repo.(objects := repo.objects[key := repo.objects[key].(deleted := true, replicas := [])]) else repo
  }

  /** None is the source's NotFound. */
  function Find(repo: Repo, key: Str): Option<ObjectLocation> {
    if Live(repo, key) then Some(repo.objects[key]) else None
  }

  // ----- the class -----

  class MetadataRepository {
    const ring: ConsistentHashRing
    var nodes: seq<NodeInfo>
    var objects: map<Str, ObjectLocation>

    ghost predicate Valid()
      reads this, ring
    {
      ring.Valid()
    }

    ghost function Value(): Repo
      reads this, ring
    {
      Repo(nodes, ring.ring, ring.physical, objects)
    }

    ghost function Config(): Placement {
      Placement(ring.hash, ring.vnodes)
    }

    constructor (hash: Str -> Pos, virtualNodesPerNode: nat)
      ensures Valid() && fresh(ring) && Value() == EMPTY_REPO
    {
      ring := new ConsistentHashRing(hash, virtualNodesPerNode);
      nodes := [];
      objects := map[];
    }

    method AddNode(node: NodeInfo)
      requires Valid()
      modifies this, ring
      ensures Valid() && Value() == WithNode(Config(), old(Value()), node)
    {
      hide Placed, OwnerSet, Unique, Members, Ordered;
      var k := 0;
      while k < |nodes| && nodes[k].id != node.id
        invariant 0 <= k <= FindNode(nodes, node.id) && unchanged(this) && unchanged(ring)
      {
        k := k + 1;
      }
      if k < |nodes| {
        nodes := nodes[k := node];
        return;
      }
      nodes := nodes + [node];
      ring.AddNode(node.id);
    }

    method PlacementFor(key: Str, rf: nat) returns (r: seq<Str>)
      requires Valid()
      ensures r == Take(Preference(Value().ring, ring.hash(key)), Min(rf, |Value().members|))
    {
      r := ring.LookupReplicas(key, rf);
    }

    method RegisterObject(loc: ObjectLocation)
      requires Valid()
      modifies this
      ensures Valid() && Value() == WithObject(old(Value()), loc)
      ensures !loc.deleted ==> Find(Value(), loc.key) == Some(loc)
    {
      objects := objects[loc.key := loc];
    }

    method LookupObject(key: Str) returns (r: Option<ObjectLocation>)
      requires Valid()
      ensures r == Find(Value(), key)
    {
      if key !in objects || objects[key].deleted {
        return None;
      }
      return Some(objects[key]);
    }

    method RemoveObject(key: Str) returns (ok: bool)
      requires Valid()
      modifies this
      ensures Valid() && Value() == WithoutObject(old(Value()), key)
      ensures ok == Live(old(Value()), key) && Find(Value(), key) == None
    {
      if key !in objects || objects[key].deleted {
        return false;
      }
      objects := objects[key := objects[key].(deleted := true, replicas := [])];
      return true;
    }
  }
}

/**
  The repository as a replicated state machine: each node folds the entries it applied into its own
  copy. The command format is a parameter, since the serialisation library is not modelled.
 */
module ReplicatedMetadata {
  import opened ByteStrings
  import opened Wire
  import opened HashRing
  import opened Metadata
  import opened RaftTypes
  import opened RaftHandlers
  import opened RaftCluster
  import opened RaftSafety

  /** `Nothing` is a message without an operation. */
  datatype MetadataCommand =
    | RegisterObject(loc: ObjectLocation)
    | RemoveObject(key: Str)
    | AddNode(id: Str, address: Str)
    | Nothing

  datatype Codec = Codec(parse: Str -> Option<MetadataCommand>)

  /** A command that does not parse is ignored. */
  function ApplyEntry(codec: Codec, p: Placement, repo: Repo, entry: LogEntry): (r: Repo)
    requires Ordered(repo.ring)
    ensures Ordered(r.ring)
  {
    match codec.parse(entry.command)
    case None => repo
    case Some(RegisterObject(loc)) => WithObject(repo, loc)
    case Some(RemoveObject(key)) => WithoutObject(repo, key)
    case Some(AddNode(id, address)) => WithNode(p, repo, NodeInfo(id, address, Healthy, 0, 0))
    case Some(Nothing) => repo
  }

  /** A replica that started from `boot` and applied `entries`. */
  function Replay(codec: Codec, p: Placement, boot: Repo, entries: seq<LogEntry>): (r: Repo)
    requires Ordered(boot.ring)
    ensures Ordered(r.ring)
  {
    if entries == [] then boot
    else ApplyEntry(codec, p, Replay(codec, p, boot, entries[..|entries| - 1]), entries[|entries| - 1])
  }

  class RaftMetadataRepository {
    const inner: MetadataRepository
    const codec: Codec
    // The entries applied since start, which the fold is taken over.
    ghost var boot: Repo
    ghost var history: seq<LogEntry>

    ghost predicate Valid()
      reads this, inner, inner.ring
    {
      inner.Valid() && Ordered(boot.ring) && Joined(boot) && inner.Value() == Replay(codec, inner.Config(), boot, history)
    }

    constructor (hash: Str -> Pos, virtualNodesPerNode: nat, codec: Codec)
      ensures Valid() && fresh(inner) && fresh(inner.ring) && boot == EMPTY_REPO && history == []
      ensures this.codec == codec
    {
      inner := new MetadataRepository(hash, virtualNodesPerNode);
      this.codec := codec;
      boot := EMPTY_REPO;
      history := [];
    }

    /** Bootstrap members are added before consensus starts, outside the log. */
    method AddBootstrapNode(node: NodeInfo)
      requires Valid() && history == []
      modifies this, inner, inner.ring
      ensures Valid() && history == [] && boot == WithNode(inner.Config(), old(boot), node)
    {
      WithNodeJoins(inner.Config(), boot, node);
      inner.AddNode(node);
      boot := inner.Value();
    }

    method Apply(entry: LogEntry)
      requires Valid()
      modifies this, inner, inner.ring
      ensures Valid() && history == old(history) + [entry] && boot == old(boot)
      ensures inner.Value() == ApplyEntry(codec, inner.Config(), old(inner.Value()), entry)
    {
      hide Replay, WithNode, OwnerSet, Unique, Members, Ordered;
      var cmd := codec.parse(entry.command);
      match cmd {
        case None =>
        case Some(RegisterObject(loc)) => inner.RegisterObject(loc);
        case Some(RemoveObject(key)) =>
          var ok := inner.RemoveObject(key);
        case Some(AddNode(id, address)) => inner.AddNode(NodeInfo(id, address, Healthy, 0, 0));
        case Some(Nothing) =>
      }
      ReplaySnoc(codec, inner.Config(), boot, history, entry);
      history := history + [entry];
    }
  }

  lemma ReplaySnoc(codec: Codec, p: Placement, boot: Repo, entries: seq<LogEntry>, e: LogEntry)
    requires Ordered(boot.ring)
    ensures Replay(codec, p, boot, entries + [e]) == ApplyEntry(codec, p, Replay(codec, p, boot, entries), e)
  {
    assert (entries + [e])[..|entries|] == entries;
  }

  lemma {:induction false} ReplayGoesOn(codec: Codec, p: Placement, boot: Repo, a: seq<LogEntry>, b: seq<LogEntry>)
    requires Ordered(boot.ring)
    ensures Replay(codec, p, boot, a + b) == Replay(codec, p, Replay(codec, p, boot, a), b)
  {
    hide ApplyEntry, Ordered;
    if b == [] {
      assert a + b == a;
    } else {
      assert a + b == (a + b[..|b| - 1]) + [b[|b| - 1]];
      ReplayGoesOn(codec, p, boot, a, b[..|b| - 1]);
      ReplaySnoc(codec, p, boot, a + b[..|b| - 1], b[|b| - 1]);
    }
  }

  /**
    Replicas with the same bootstrap membership that have applied equally many entries are equal, at
    whatever moments of whatever run, crashes included; a replica that has applied fewer is at an
    earlier point of the same history.
   */
  lemma ReplicasAgree(codec: Codec, p: Placement, boot: Repo, states: seq<Cluster>, acts: seq<Action>, i: nat, j: nat, a: Id, b: Id)
    requires Ordered(boot.ring)
    requires IsRun(states, acts) && i < |states| && j < |states| && a in states[i].members && b in states[j].members
    requires |states[i].nodes[a].applied| <= |states[j].nodes[b].applied|
    ensures states[i].nodes[a].applied <= states[j].nodes[b].applied
    ensures var ra, rb := Replay(codec, p, boot, states[i].nodes[a].applied), Replay(codec, p, boot, states[j].nodes[b].applied);
            && rb == Replay(codec, p, ra, states[j].nodes[b].applied[|states[i].nodes[a].applied|..])
            && (|states[i].nodes[a].applied| == |states[j].nodes[b].applied| ==> ra == rb)
  {
    hide IsRun, Replay, Ordered;
    AllWf(states, acts);
    StateMachineSafety(states, acts, i, j, a, b);
    var x, y := states[i].nodes[a].applied, states[j].nodes[b].applied;
    assert y == x + y[|x|..];
    assert |x| == |y| ==> x == y;
    ReplayGoesOn(codec, p, boot, x, y[|x|..]);
  }

  predicate Touches(codec: Codec, entry: LogEntry, key: Str) {
    match codec.parse(entry.command)
    case Some(RegisterObject(loc)) => loc.key == key
    case Some(RemoveObject(k)) => k == key
    case _ => false
  }

  lemma {:induction false} UntouchedStays(codec: Codec, p: Placement, repo: Repo, entries: seq<LogEntry>, key: Str)
    requires Ordered(repo.ring) && forall e :: e in entries ==> !Touches(codec, e, key)
    ensures Find(Replay(codec, p, repo, entries), key) == Find(repo, key)
  {
    if entries != [] {
      var init, last := entries[..|entries| - 1], entries[|entries| - 1];
      assert !Touches(codec, last, key);
      UntouchedStays(codec, p, repo, init, key);
      OneUntouched(codec, p, Replay(codec, p, repo, init), last, key);
    }
  }

  lemma OneUntouched(codec: Codec, p: Placement, repo: Repo, e: LogEntry, key: Str)
    requires Ordered(repo.ring) && !Touches(codec, e, key)
    ensures Find(ApplyEntry(codec, p, repo, e), key) == Find(repo, key)
  {
  }

  /** An acknowledged proposal, and a replica that has applied its index. */
  ghost predicate AckedAt(states: seq<Cluster>, acts: seq<Action>, i: nat, j: nat, k: nat, b: Id) {
    && IsRun(states, acts) && i < |acts| && i < j < |states| && k < |states|
    && acts[i].SubmitAt? && acts[i].n in states[i].nodes && acts[i].n in states[j].nodes && b in states[k].nodes
    && Look(states[j].nodes[acts[i].n], Proposed(states, acts, i).index, Proposed(states, acts, i).term) == Applied
    && |states[k].nodes[b].applied| >= Proposed(states, acts, i).index
  }

  /** The replica is at the entry, and then at what it has applied since. */
  lemma AckedEntry(codec: Codec, p: Placement, boot: Repo, states: seq<Cluster>, acts: seq<Action>, i: nat, j: nat, k: nat, b: Id)
    requires Ordered(boot.ring) && AckedAt(states, acts, i, j, k, b)
    ensures var e, log := Proposed(states, acts, i), states[k].nodes[b].applied;
            && 1 <= e.index <= |log| && e.command == acts[i].command
            && var at := ApplyEntry(codec, p, Replay(codec, p, boot, log[..e.index - 1]), e);
               Replay(codec, p, boot, log) == Replay(codec, p, at, log[e.index..])
  {
    hide IsRun, Replay, Ordered, Look, ApplyEntry;
    AllWf(states, acts);
    ProposedIsLogged(states, acts, i);
    AcknowledgedProposal(states, acts, i, j, k, b);
    var e, log := Proposed(states, acts, i), states[k].nodes[b].applied;
    var before, after := log[..e.index - 1], log[e.index..];
    assert log == (before + [e]) + after;
    ReplayGoesOn(codec, p, boot, before + [e], after);
    ReplaySnoc(codec, p, boot, before, e);
  }

  /**
    Once a register call is acknowledged, every replica that has applied its index answers a lookup
    with that very location, until an entry that touches the same key is applied.
   */
  lemma AcknowledgedRegister(codec: Codec, p: Placement, boot: Repo, states: seq<Cluster>, acts: seq<Action>,
                             i: nat, j: nat, k: nat, b: Id, loc: ObjectLocation)
    requires Ordered(boot.ring) && AckedAt(states, acts, i, j, k, b)
    requires codec.parse(acts[i].command) == Some(RegisterObject(loc))
    requires forall e :: e in states[k].nodes[b].applied[Proposed(states, acts, i).index..] ==> !Touches(codec, e, loc.key)
    ensures Find(Replay(codec, p, boot, states[k].nodes[b].applied), loc.key) == if loc.deleted then None else Some(loc)
  {
    hide IsRun, Look, Replay, Touches, Ordered;
    AckedEntry(codec, p, boot, states, acts, i, j, k, b);
    var e, log := Proposed(states, acts, i), states[k].nodes[b].applied;
    UntouchedStays(codec, p, ApplyEntry(codec, p, Replay(codec, p, boot, log[..e.index - 1]), e), log[e.index..], loc.key);
  }

  /** Once a remove call is acknowledged, such a replica finds nothing under the key, until an entry touches it. */
  lemma AcknowledgedRemove(codec: Codec, p: Placement, boot: Repo, states: seq<Cluster>, acts: seq<Action>,
                           i: nat, j: nat, k: nat, b: Id, key: Str)
    requires Ordered(boot.ring) && AckedAt(states, acts, i, j, k, b)
    requires codec.parse(acts[i].command) == Some(RemoveObject(key))
    requires forall e :: e in states[k].nodes[b].applied[Proposed(states, acts, i).index..] ==> !Touches(codec, e, key)
    ensures Find(Replay(codec, p, boot, states[k].nodes[b].applied), key) == None
  {
    hide IsRun, Look, Replay, Touches, Ordered;
    AckedEntry(codec, p, boot, states, acts, i, j, k, b);
    var e, log := Proposed(states, acts, i), states[k].nodes[b].applied;
    UntouchedStays(codec, p, ApplyEntry(codec, p, Replay(codec, p, boot, log[..e.index - 1]), e), log[e.index..], key);
  }

  predicate Renames(codec: Codec, entry: LogEntry, id: Str) {
    match codec.parse(entry.command)
    case Some(AddNode(other, _)) => other == id
    case _ => false
  }

  lemma {:induction false} MembersStay(codec: Codec, p: Placement, repo: Repo, entries: seq<LogEntry>, id: Str)
    requires Ordered(repo.ring) && Joined(repo)
    ensures Joined(Replay(codec, p, repo, entries))
    ensures id in repo.members ==> id in Replay(codec, p, repo, entries).members
    ensures (forall e :: e in entries ==> !Renames(codec, e, id)) ==>
              NodeById(Replay(codec, p, repo, entries).nodes, id) == NodeById(repo.nodes, id)
  {
    hide Ordered, Joined, Renames, NodeById, ApplyEntry;
    if entries != [] {
      var init, last := entries[..|entries| - 1], entries[|entries| - 1];
      MembersStay(codec, p, repo, init, id);
      OneMemberStays(codec, p, Replay(codec, p, repo, init), last, id);
      assert last in entries && forall e :: e in init ==> e in entries;
    }
  }

  lemma OneMemberStays(codec: Codec, p: Placement, repo: Repo, e: LogEntry, id: Str)
    requires Ordered(repo.ring) && Joined(repo)
    ensures var r := ApplyEntry(codec, p, repo, e);
            && Joined(r) && (id in repo.members ==> id in r.members)
            && (!Renames(codec, e, id) ==> NodeById(r.nodes, id) == NodeById(repo.nodes, id))
  {
    hide Ordered, NodeById, WithNode;
    match codec.parse(e.command)
    case Some(AddNode(other, address)) =>
      var node := NodeInfo(other, address, Healthy, 0, 0);
      WithNodeJoins(p, repo, node);
      WithNodeTable(p, repo, node, id);
    case _ =>
  }

  /**
    Once a call that adds a node is acknowledged, the node is a member of the ring of every such replica for
    good, and its address is the given one until an entry adds the same id again.
   */
  lemma AcknowledgedAddNode(codec: Codec, p: Placement, boot: Repo, states: seq<Cluster>, acts: seq<Action>,
                            i: nat, j: nat, k: nat, b: Id, id: Str, address: Str)
    requires Ordered(boot.ring) && Joined(boot) && AckedAt(states, acts, i, j, k, b)
    requires codec.parse(acts[i].command) == Some(AddNode(id, address))
    ensures var r, log := Replay(codec, p, boot, states[k].nodes[b].applied), states[k].nodes[b].applied;
            && id in r.members
            && ((forall e :: e in log[Proposed(states, acts, i).index..] ==> !Renames(codec, e, id)) ==>
                  NodeById(r.nodes, id).Some? && NodeById(r.nodes, id).value.address == address)
  {
    hide IsRun, Look, Replay, Renames, Ordered, WithNode, Joined, NodeById;
    AckedEntry(codec, p, boot, states, acts, i, j, k, b);
    var e, log := Proposed(states, acts, i), states[k].nodes[b].applied;
    var before := Replay(codec, p, boot, log[..e.index - 1]);
    MembersStay(codec, p, boot, log[..e.index - 1], id);
    var node := NodeInfo(id, address, Healthy, 0, 0);
    WithNodeJoins(p, before, node);
    WithNodeTable(p, before, node, id);
    MembersStay(codec, p, ApplyEntry(codec, p, before, e), log[e.index..], id);
  }
}
