/**
  The consistent-hash ring. The ordered map from positions to owners is a sequence of slots in
  strictly rising position; an iterator over it is an index. The 64-bit hash is a parameter.
 */
module HashRing {
  import opened ByteStrings

  const POSITIONS := 0x1_0000_0000_0000_0000

  type Pos = x: int | 0 <= x < POSITIONS

  datatype Slot = Slot(pos: Pos, owner: Str)

  // ----- the ring as a value -----

  predicate Ordered(ring: seq<Slot>) {
    forall i, j :: 0 <= i < j < |ring| ==> ring[i].pos < ring[j].pos
  }

  /** The number of slots before position p, which is where the map's lower_bound points. */
  function LowerBound(ring: seq<Slot>, p: Pos): (r: nat)
    requires Ordered(ring)
    ensures r <= |ring|
    ensures forall i :: 0 <= i < r ==> ring[i].pos < p
    ensures forall i :: r <= i < |ring| ==> p <= ring[i].pos
  {
    if ring == [] || p <= ring[0].pos then 0 else 1 + LowerBound(ring[1..], p)
  }

  /** Adds a slot unless the position is taken: the existing owner stays. */
  function Emplace(ring: seq<Slot>, slot: Slot): (r: seq<Slot>)
    requires Ordered(ring)
    ensures Ordered(r)
    ensures forall s :: s in r ==> s in ring || s == slot
    ensures forall s :: s in ring ==> s in r
  {
    if ring == [] || slot.pos < ring[0].pos then [slot] + ring
    else if slot.pos == ring[0].pos then ring
    else
      var r := Emplace(ring[1..], slot);
      assert forall k :: 0 <= k < |r| ==> r[k] in ring[1..] || r[k] == slot;
      assert forall s :: s in ring[1..] ==> ring[0].pos < s.pos;
      [ring[0]] + r
  }

  /** The slots that are not owned by `node`, in order. */
  function Drop(ring: seq<Slot>, node: Str): (r: seq<Slot>)
    ensures forall s :: s in r <==> s in ring && s.owner != node
    ensures Ordered(ring) ==> Ordered(r)
  {
    if ring == [] then []
    else if ring[0].owner == node then Drop(ring[1..], node)
    else [ring[0]] + Drop(ring[1..], node)
  }

  /** The decimal digits of i, as std::to_string writes them. */
  function Decimal(i: nat): Str {
    if i < 10 then [48 + i] else Decimal(i / 10) + [48 + i % 10]
  }

  function VNode(hash: Str -> Pos, node: Str, i: nat): Slot {
    Slot(hash(node + [35] + Decimal(i)), node)
  }

  /** The ring after the first n virtual nodes of `node` were placed. */
  function Placed(hash: Str -> Pos, ring: seq<Slot>, node: Str, n: nat): (r: seq<Slot>)
    requires Ordered(ring)
    ensures Ordered(r)
    ensures forall s :: s in r ==> s in ring || s.owner == node
    ensures forall s :: s in ring ==> s in r
  {
    if n == 0 then ring else Emplace(Placed(hash, ring, node, n - 1), VNode(hash, node, n - 1))
  }

  // ----- what AddNode places -----

  predicate Taken(ring: seq<Slot>, p: Pos) {
    exists i :: 0 <= i < |ring| && ring[i].pos == p
  }

  lemma {:induction false} EmplaceExact(ring: seq<Slot>, slot: Slot, s: Slot)
    requires Ordered(ring)
    ensures s in Emplace(ring, slot) <==> s in ring || (s == slot && !Taken(ring, slot.pos))
  {
    if ring != [] && slot.pos > ring[0].pos {
      EmplaceExact(ring[1..], slot, s);
      TakenFirst(ring, slot.pos);
      assert ring == [ring[0]] + ring[1..];
    }
  }

  lemma TakenFirst(ring: seq<Slot>, p: Pos)
    requires ring != []
    ensures Taken(ring, p) <==> ring[0].pos == p || Taken(ring[1..], p)
  {
    var rest := ring[1..];
    if Taken(rest, p) {
      var i :| 0 <= i < |rest| && rest[i].pos == p;
      assert ring[i + 1].pos == p;
    }
    if Taken(ring, p) && ring[0].pos != p {
      var i :| 0 <= i < |ring| && ring[i].pos == p;
      assert rest[i - 1].pos == p;
    }
  }

  /** The position of virtual node i of a node: the hash of the id, a number sign and i in decimal. */
  ghost predicate VirtualPosition(hash: Str -> Pos, node: Str, n: nat, p: Pos) {
    exists i: nat :: i < n && VNode(hash, node, i).pos == p
  }

  /** Adding a node adds exactly its virtual nodes at positions that were free. */
  lemma {:induction false} PlacedExact(hash: Str -> Pos, ring: seq<Slot>, node: Str, n: nat, s: Slot)
    requires Ordered(ring)
    ensures s in Placed(hash, ring, node, n) <==>
            s in ring || (s.owner == node && VirtualPosition(hash, node, n, s.pos) && !Taken(ring, s.pos))
  {
    hide Emplace, Ordered, VNode;
    if n > 0 {
      var r, slot := Placed(hash, ring, node, n - 1), VNode(hash, node, n - 1);
      PlacedExact(hash, ring, node, n - 1, s);
      PlacedExact(hash, ring, node, n - 1, slot);
      EmplaceExact(r, slot, s);
      OwnedBy(hash, node, n - 1);
      if Taken(r, slot.pos) && !Taken(ring, slot.pos) {
        var i :| 0 <= i < |r| && r[i].pos == slot.pos;
        PlacedExact(hash, ring, node, n - 1, r[i]);
      }
      if Taken(ring, slot.pos) {
        var j :| 0 <= j < |ring| && ring[j].pos == slot.pos;
        assert ring[j] in r;
      }
    }
  }

  lemma OwnedBy(hash: Str -> Pos, node: Str, i: nat)
    ensures VNode(hash, node, i).owner == node
  {
  }

  /** The number that decimal digits spell. */
  function Spelled(digits: Str): int {
    if digits == [] then 0 else Spelled(digits[..|digits| - 1]) * 10 + (digits[|digits| - 1] as int - 48)
  }

  lemma {:induction false} DecimalSpells(i: nat)
    ensures Decimal(i) != [] && Spelled(Decimal(i)) == i
    ensures forall k :: 0 <= k < |Decimal(i)| ==> 48 <= Decimal(i)[k] <= 57
    ensures i > 0 ==> Decimal(i)[0] != 48
  {
    if i >= 10 {
      DecimalSpells(i / 10);
      assert Decimal(i)[..|Decimal(i)| - 1] == Decimal(i / 10);
    } else {
      assert [48 + i][..0] == [];
    }
  }

  // ----- the clockwise walk -----

  /** The owners of the slots at or after position h. */
  function Ahead(ring: seq<Slot>, h: Pos): seq<Str> {
    if ring == [] then []
    else (if ring[0].pos >= h then [ring[0].owner] else []) + Ahead(ring[1..], h)
  }

  /** The owners of the slots before position h. */
  function Behind(ring: seq<Slot>, h: Pos): seq<Str> {
    if ring == [] then []
    else (if ring[0].pos < h then [ring[0].owner] else []) + Behind(ring[1..], h)
  }

  /** The owners met on one clockwise turn that starts at position h. */
  function Walk(ring: seq<Slot>, h: Pos): seq<Str> {
    Ahead(ring, h) + Behind(ring, h)
  }

  predicate Unique(s: seq<Str>) {
    forall i, j :: 0 <= i < j < |s| ==> s[i] != s[j]
  }

  /** Each element once, where it first occurs. */
  function Firsts(s: seq<Str>): (r: seq<Str>)
    ensures forall x :: x in r <==> x in s
  {
    if s == [] then []
    else
      var r := Firsts(s[..|s| - 1]);
      assert s == s[..|s| - 1] + [s[|s| - 1]];
      if s[|s| - 1] in r then r else r + [s[|s| - 1]]
  }

  function Min(a: nat, b: nat): nat {
    if a <= b then a else b
  }

  function Take(s: seq<Str>, n: nat): seq<Str> {
    s[..Min(n, |s|)]
  }

  /** Every owner in the order of the clockwise walk from h. */
  function Preference(ring: seq<Slot>, h: Pos): seq<Str> {
    Firsts(Walk(ring, h))
  }

  function Without(s: seq<Str>, x: Str): (r: seq<Str>)
    ensures forall y :: y in r <==> y in s && y != x
    ensures |r| <= |s|
  {
    if s == [] then []
    else if s[0] == x then Without(s[1..], x)
    else [s[0]] + Without(s[1..], x)
  }

  // ----- the walk really is clockwise -----

  /** How far a position lies ahead of h on the circle. */
  function Distance(h: Pos, p: Pos): nat {
    if p >= h then p - h else p + POSITIONS - h
  }

  /** One turn of the ring that starts at index `start`. */
  function Turn(ring: seq<Slot>, start: nat): seq<Slot>
    requires start <= |ring|
  {
    ring[start..] + ring[..start]
  }

  function Owners(slots: seq<Slot>): (r: seq<Str>)
    ensures |r| == |slots| && forall i :: 0 <= i < |r| ==> r[i] == slots[i].owner
  {
    if slots == [] then [] else [slots[0].owner] + Owners(slots[1..])
  }

  lemma {:induction false} AheadIsTail(ring: seq<Slot>, h: Pos)
    requires Ordered(ring)
    ensures Ahead(ring, h) == Owners(ring[LowerBound(ring, h)..])
    ensures Behind(ring, h) == Owners(ring[..LowerBound(ring, h)])
  {
    if ring != [] {
      AheadIsTail(ring[1..], h);
      if ring[0].pos < h {
        assert ring[..LowerBound(ring, h)][1..] == ring[1..][..LowerBound(ring[1..], h)];
      } else {
        assert LowerBound(ring[1..], h) == 0;
        assert ring[1..][0..] == ring[1..];
      }
    }
  }

  lemma WalkIsTurn(ring: seq<Slot>, h: Pos)
    requires Ordered(ring)
    ensures Walk(ring, h) == Owners(Turn(ring, LowerBound(ring, h)))
  {
    hide Ahead, Behind, Owners, Ordered, LowerBound;
    AheadIsTail(ring, h);
  }

  /** Walk visits every slot once, in the order of its clockwise distance from h. */
  lemma WalkIsClockwise(ring: seq<Slot>, h: Pos)
    requires Ordered(ring)
    ensures var turn := Turn(ring, LowerBound(ring, h));
            && Walk(ring, h) == Owners(turn)
            && multiset(turn) == multiset(ring)
            && forall i, j :: 0 <= i < j < |turn| ==> Distance(h, turn[i].pos) < Distance(h, turn[j].pos)
  {
    hide Walk, LowerBound, Owners;
    WalkIsTurn(ring, h);
    assert ring == ring[..LowerBound(ring, h)] + ring[LowerBound(ring, h)..];
  }

  // ----- dropping a node commutes with everything -----

  lemma {:induction false} DropAhead(ring: seq<Slot>, node: Str, h: Pos)
    ensures Ahead(Drop(ring, node), h) == Without(Ahead(ring, h), node)
  {
    if ring != [] {
      DropAhead(ring[1..], node, h);
      var slot, rest := ring[0], Ahead(ring[1..], h);
      assert ([slot.owner] + rest)[1..] == rest && [] + rest == rest;
      assert ([slot] + Drop(ring[1..], node))[1..] == Drop(ring[1..], node);
    }
  }

  lemma {:induction false} DropBehind(ring: seq<Slot>, node: Str, h: Pos)
    ensures Behind(Drop(ring, node), h) == Without(Behind(ring, h), node)
  {
    if ring != [] {
      DropBehind(ring[1..], node, h);
      var slot, rest := ring[0], Behind(ring[1..], h);
      assert ([slot.owner] + rest)[1..] == rest && [] + rest == rest;
      assert ([slot] + Drop(ring[1..], node))[1..] == Drop(ring[1..], node);
    }
  }

  lemma {:induction false} WithoutConcat(s: seq<Str>, t: seq<Str>, x: Str)
    ensures Without(s + t, x) == Without(s, x) + Without(t, x)
  {
    if s == [] {
      assert s + t == t;
    } else {
      assert (s + t)[1..] == s[1..] + t;
      WithoutConcat(s[1..], t, x);
    }
  }

  lemma FirstsSnoc(s: seq<Str>, x: Str)
    ensures Firsts(s + [x]) == if x in s then Firsts(s) else Firsts(s) + [x]
  {
    assert (s + [x])[..|s|] == s;
  }

  lemma WithoutSnoc(s: seq<Str>, y: Str, x: Str)
    ensures Without(s + [y], x) == if y == x then Without(s, x) else Without(s, x) + [y]
  {
    WithoutConcat(s, [y], x);
  }

  lemma {:induction false} FirstsWithout(s: seq<Str>, x: Str)
    ensures Firsts(Without(s, x)) == Without(Firsts(s), x)
  {
    hide Firsts, Without;
    if s == [] {
      EmptyFirsts(x);
    } else {
      var init, last := s[..|s| - 1], s[|s| - 1];
      assert s == init + [last];
      FirstsWithout(init, x);
      WithoutSnoc(init, last, x);
      FirstsSnoc(init, last);
      WithoutSnoc(Firsts(init), last, x);
      FirstsSnoc(Without(init, x), last);
    }
  }

  lemma EmptyFirsts(x: Str)
    ensures Firsts([]) == [] && Without([], x) == []
  {
  }

  lemma DropPrefers(ring: seq<Slot>, node: Str, h: Pos)
    ensures Preference(Drop(ring, node), h) == Without(Preference(ring, h), node)
  {
    hide Ahead, Behind, Firsts, Without, Drop;
    DropAhead(ring, node, h);
    DropBehind(ring, node, h);
    WithoutConcat(Ahead(ring, h), Behind(ring, h), node);
    FirstsWithout(Walk(ring, h), node);
  }

  // ----- adding a node and removing it again -----

  lemma {:induction false} DropNothing(ring: seq<Slot>, node: Str)
    requires forall s :: s in ring ==> s.owner != node
    ensures Drop(ring, node) == ring
  {
    if ring != [] {
      DropNothing(ring[1..], node);
    }
  }

  lemma {:induction false} DropEmplaced(ring: seq<Slot>, slot: Slot)
    requires Ordered(ring)
    ensures Drop(Emplace(ring, slot), slot.owner) == Drop(ring, slot.owner)
  {
    if ring != [] && slot.pos > ring[0].pos {
      DropEmplaced(ring[1..], slot);
    } else if ring == [] || slot.pos < ring[0].pos {
      assert Emplace(ring, slot)[1..] == ring;
    }
  }

  /** Whatever collides, placing a node changes nothing about the others. */
  lemma {:induction false} DropPlaced(hash: Str -> Pos, ring: seq<Slot>, node: Str, n: nat)
    requires Ordered(ring) && forall s :: s in ring ==> s.owner != node
    ensures Drop(Placed(hash, ring, node, n), node) == ring
  {
    hide Drop, Placed, Emplace, Ordered, Decimal;
    if n == 0 {
      PlacedNone(hash, ring, node);
      DropNothing(ring, node);
    } else {
      DropPlaced(hash, ring, node, n - 1);
      PlacedNext(hash, ring, node, n - 1);
      DropEmplaced(Placed(hash, ring, node, n - 1), VNode(hash, node, n - 1));
    }
  }

  // ----- minimal disruption -----

  lemma {:induction false} FirstsDistinct(s: seq<Str>)
    ensures Unique(Firsts(s))
  {
    if s != [] {
      FirstsDistinct(s[..|s| - 1]);
    }
  }

  lemma {:induction false} WithoutAbsent(s: seq<Str>, x: Str)
    requires x !in s
    ensures Without(s, x) == s
  {
    if s != [] {
      WithoutAbsent(s[1..], x);
    }
  }

  /** A cut of a list keeps what a cut of the list without x keeps, save perhaps the last element. */
  lemma TakeWithout(s: seq<Str>, x: Str, n: nat)
    requires Unique(s)
    ensures x !in Take(s, n) ==> Take(s, n) == Take(Without(s, x), n)
    ensures x in Take(s, n) ==> n > 0 && Without(Take(s, n), x) == Take(Without(s, x), n - 1)
  {
    hide Without, Unique;
    if x in s {
      var k :| 0 <= k < |s| && s[k] == x;
      WithoutAt(s, k);
      UniqueTake(s, n, k);
      if k < n {
        assert Take(s, n)[k] == x;
        WithoutAt(Take(s, n), k);
      }
    } else {
      WithoutAbsent(s, x);
    }
  }

  lemma UniqueTake(s: seq<Str>, n: nat, k: nat)
    requires Unique(s) && k < |s|
    ensures Unique(Take(s, n)) && (s[k] in Take(s, n) <==> k < n)
  {
  }

  /**
    Adding a node can only insert it into the replica list of a key: the old replicas keep their
    order, and at most the last of them gives way.
   */
  lemma AddDisplacesAtMostOne(hash: Str -> Pos, ring: seq<Slot>, node: Str, vnodes: nat, h: Pos, count: nat)
    requires Ordered(ring) && forall s :: s in ring ==> s.owner != node
    ensures var was, now := Take(Preference(ring, h), count), Take(Preference(Placed(hash, ring, node, vnodes), h), count);
            && (node !in now ==> now == was)
            && (node in now ==> count > 0 && Without(now, node) == Take(was, count - 1))
  {
    var ring' := Placed(hash, ring, node, vnodes);
    DropPlaced(hash, ring, node, vnodes);
    DropPrefers(ring', node, h);
    FirstsDistinct(Walk(ring', h));
    TakeWithout(Preference(ring', h), node, count);
  }

  /**
    Removing a node keeps every surviving replica of a key, in order; at most one new replica joins,
    behind them.
   */
  lemma RemoveKeepsSurvivors(ring: seq<Slot>, node: Str, h: Pos, count: nat)
    ensures var was, now := Take(Preference(ring, h), count), Take(Preference(Drop(ring, node), h), count);
            && Without(was, node) <= now
            && (node !in was ==> now == was)
            && |now| <= |Without(was, node)| + 1
  {
    DropPrefers(ring, node, h);
    FirstsDistinct(Walk(ring, h));
    TakeWithout(Preference(ring, h), node, count);
    if node !in Take(Preference(ring, h), count) {
      WithoutAbsent(Take(Preference(ring, h), count), node);
    }
  }

  // ----- how many replicas a key gets -----

  function OwnerSet(ring: seq<Slot>): set<Str> {
    set s | s in ring :: s.owner
  }

  lemma {:induction false} WalkMeets(ring: seq<Slot>, h: Pos)
    ensures forall x :: x in Walk(ring, h) <==> x in OwnerSet(ring)
  {
    if ring != [] {
      WalkMeets(ring[1..], h);
      assert forall x :: x in Walk(ring, h) <==> x == ring[0].owner || x in Walk(ring[1..], h);
      assert forall x :: x in OwnerSet(ring) <==> x == ring[0].owner || x in OwnerSet(ring[1..]);
    }
  }

  lemma {:induction false} DistinctSize(s: seq<Str>, all: set<Str>)
    requires Unique(s)
    requires forall x :: x in s <==> x in all
    ensures |s| == |all|
  {
    if s != [] {
      var init, last := s[..|s| - 1], s[|s| - 1];
      assert s == init + [last];
      assert last !in init;
      DistinctSize(init, all - {last});
    }
  }

  lemma PreferenceSize(ring: seq<Slot>, h: Pos)
    ensures |Preference(ring, h)| == |OwnerSet(ring)|
  {
    WalkMeets(ring, h);
    FirstsDistinct(Walk(ring, h));
    DistinctSize(Preference(ring, h), OwnerSet(ring));
  }

  lemma SubsetSize<T>(a: set<T>, b: set<T>)
    requires a <= b
    ensures |a| <= |b| && (|a| == |b| <==> a == b)
  {
    assert b == a + (b - a);
  }

  /** The nodes that are members, as a set. */
  function Members(physical: seq<Str>): set<Str> {
    set n | n in physical
  }

  lemma MembersSize(physical: seq<Str>)
    requires Unique(physical)
    ensures |Members(physical)| == |physical|
  {
    DistinctSize(physical, Members(physical));
  }

  /**
    A lookup returns min(count, members) replicas, exactly if enough members still own a slot. A member
    that lost all its positions to collisions is never a replica.
   */
  lemma ReplicaCount(ring: seq<Slot>, physical: seq<Str>, h: Pos, count: nat)
    requires Unique(physical)
    requires OwnerSet(ring) <= Members(physical)
    ensures Take(Preference(ring, h), Min(count, |physical|)) == Take(Preference(ring, h), count)
    ensures |Take(Preference(ring, h), count)| == Min(count, |physical|)
            <==> count <= |OwnerSet(ring)| || Members(physical) <= OwnerSet(ring)
  {
    PreferenceSize(ring, h);
    MembersSize(physical);
    SubsetSize(OwnerSet(ring), Members(physical));
  }

  /** Two nodes with one virtual node each, at the same position: the second is a member, yet never a replica. */
  lemma CollidingMemberIsLost(hash: Str -> Pos, a: Str, b: Str, h: Pos)
    requires a != b && VNode(hash, a, 0).pos == VNode(hash, b, 0).pos
    ensures Take(Preference(Placed(hash, Placed(hash, [], a, 1), b, 1), h), Min(2, |[a, b]|)) == [a]
  {
    hide Placed, VNode, Preference;
    PlacedOne(hash, [], a);
    VNodeOwner(hash, a);
    var ring := [VNode(hash, a, 0)];
    assert Emplace([], VNode(hash, a, 0)) == ring;
    PlacedOne(hash, ring, b);
    OneSlot(ring[0].pos, a, h);
  }

  lemma VNodeOwner(hash: Str -> Pos, a: Str)
    ensures VNode(hash, a, 0).owner == a
  {
  }

  lemma PlacedOne(hash: Str -> Pos, ring: seq<Slot>, node: Str)
    requires Ordered(ring)
    ensures Placed(hash, ring, node, 1) == Emplace(ring, VNode(hash, node, 0))
  {
    assert Placed(hash, ring, node, 0) == ring;
  }

  lemma OneSlot(p: Pos, a: Str, h: Pos)
    ensures Preference([Slot(p, a)], h) == [a]
  {
    var ring := [Slot(p, a)];
    assert ring[1..] == [] && Ahead([], h) == [] && Behind([], h) == [];
    assert Walk(ring, h) == [a];
    assert [a][..0] == [] && Firsts([]) == [];
  }

  // ----- the class -----

  class ConsistentHashRing {
    const hash: Str -> Pos
    const vnodes: nat
    var ring: seq<Slot>
    var physical: seq<Str>

    ghost predicate Valid()
      reads this
    {
      && Ordered(ring) && vnodes >= 1
      && OwnerSet(ring) <= Members(physical)
      && Unique(physical)
    }

    constructor (hash: Str -> Pos, virtualNodesPerNode: nat)
      ensures Valid() && ring == [] && physical == []
      ensures this.hash == hash && vnodes == if virtualNodesPerNode == 0 then 1 else virtualNodesPerNode
    {
      this.hash := hash;
      vnodes := if virtualNodesPerNode == 0 then 1 else virtualNodesPerNode;
      ring := [];
      physical := [];
    }

    method AddNode(node: Str)
      requires Valid()
      modifies this
      ensures Valid()
      ensures node in old(physical) ==> ring == old(ring) && physical == old(physical)
      ensures node !in old(physical) ==> ring == Placed(hash, old(ring), node, vnodes) && physical == old(physical) + [node]
    {
      hide Placed, OwnerSet, Emplace, Ordered, Unique, Decimal;
      if node in physical {
        return;
      }
      PlacedNone(hash, ring, node);
      UniqueSnoc(physical, node);
      physical := physical + [node];
      ghost var was := ring;
      var i := 0;
      while i < vnodes
        invariant 0 <= i <= vnodes && Ordered(was) && ring == Placed(hash, was, node, i) && physical == old(physical) + [node]
      {
        PlacedNext(hash, was, node, i);
        ring := Emplace(ring, VNode(hash, node, i));
        i := i + 1;
      }
      PlacedOwners(hash, was, node, vnodes);
    }

    method RemoveNode(node: Str)
      requires Valid()
      modifies this
      ensures Valid()
      ensures node !in old(physical) ==> ring == old(ring) && physical == old(physical)
      ensures node in old(physical) ==> ring == Drop(old(ring), node) && physical == Without(old(physical), node)
    {
      hide Drop, Without, OwnerSet, Ordered, Unique;
      var at := 0;
      while at < |physical| && physical[at] != node
        invariant 0 <= at <= |physical| && node !in physical[..at]
      {
        at := at + 1;
      }
      if at == |physical| {
        assert physical == physical[..at];
        return;
      }
      WithoutAt(physical, at);
      UniqueWithout(physical, node);
      physical := physical[..at] + physical[at + 1..];
      ghost var was := ring;
      var i := 0;
      while i < |ring|
        invariant 0 <= i <= |ring| && physical == Without(old(physical), node)
        invariant Drop(ring, node) == Drop(was, node)
        invariant forall s :: s in ring[..i] ==> s.owner != node
        decreases |ring| - i
      {
        if ring[i].owner == node {
          DropAt(ring, i);
          ring := ring[..i] + ring[i + 1..];
        } else {
          assert ring[..i + 1] == ring[..i] + [ring[i]];
          i := i + 1;
        }
      }
      assert ring == ring[..i];
      DropNothing(ring, node);
      DropOwners(was, node);
    }

    /** "" stands for no node. */
    method LookupPrimary(key: Str) returns (r: Str)
      requires Valid()
      ensures ring == [] ==> r == []
      ensures ring != [] ==> Preference(ring, hash(key)) != [] && r == Preference(ring, hash(key))[0]
    {
      if ring == [] {
        return [];
      }
      var it := LowerBound(ring, hash(key));
      WalkIsClockwise(ring, hash(key));
      FirstsHead(Walk(ring, hash(key)));
      if it == |ring| {
        it := 0;
      }
      return ring[it].owner;
    }

    /** The clockwise walk's first occurrences, cut at min(count, members). */
    method LookupReplicas(key: Str, count: nat) returns (result: seq<Str>)
      requires Valid()
      ensures result == Take(Preference(ring, hash(key)), Min(count, |physical|))
    {
      hide Firsts, LowerBound, Walk, OwnerSet, Members, Unique, Ordered, Owners;
      result := [];
      EmptyWalk(hash(key));
      if ring == [] || count == 0 {
        return;
      }
      var maxDistinct := Min(count, |physical|);
      var it := LowerBound(ring, hash(key));
      ghost var start, walk := it, Walk(ring, hash(key));
      WalkIsTurn(ring, hash(key));
      if it == |ring| {
        it := 0;
      }
      var steps := |ring|;
      var visited := 0;
      while visited < steps && |result| < maxDistinct
        invariant 0 <= visited <= steps && 0 <= it < |ring|
        invariant visited < steps ==> it == if start + visited < steps then start + visited else start + visited - steps
        invariant result == Firsts(walk[..visited]) && |result| <= maxDistinct
      {
        var node := ring[it].owner;
        assert node == walk[visited] && walk[..visited + 1] == walk[..visited] + [node];
        FirstsSnoc(walk[..visited], node);
        if node !in result {
          result := result + [node];
        }
        it := it + 1;
        if it == |ring| {
          it := 0;
        }
        visited := visited + 1;
      }
      FirstsGrow(walk, visited);
      assert visited == steps ==> walk[..visited] == walk;
      CutIsEnough(ring, physical, hash(key));
    }
  }

  lemma EmptyWalk(h: Pos)
    ensures Walk([], h) == [] && Firsts([]) == []
  {
  }

  lemma CutIsEnough(ring: seq<Slot>, physical: seq<Str>, h: Pos)
    requires OwnerSet(ring) <= Members(physical) && Unique(physical)
    ensures |Preference(ring, h)| <= |physical|
  {
    hide Preference, OwnerSet, Members;
    PreferenceSize(ring, h);
    MembersSize(physical);
    SubsetSize(OwnerSet(ring), Members(physical));
  }

  lemma UniqueSnoc(s: seq<Str>, x: Str)
    requires Unique(s) && x !in s
    ensures Unique(s + [x])
  {
  }

  lemma {:induction false} UniqueWithout(s: seq<Str>, x: Str)
    requires Unique(s)
    ensures Unique(Without(s, x))
  {
    if s != [] {
      UniqueWithout(s[1..], x);
      assert s[0] !in s[1..] && s[0] !in Without(s[1..], x);
    }
  }

  lemma PlacedNone(hash: Str -> Pos, ring: seq<Slot>, node: Str)
    requires Ordered(ring)
    ensures Placed(hash, ring, node, 0) == ring
  {
  }

  lemma PlacedNext(hash: Str -> Pos, ring: seq<Slot>, node: Str, n: nat)
    requires Ordered(ring)
    ensures Placed(hash, ring, node, n + 1) == Emplace(Placed(hash, ring, node, n), VNode(hash, node, n))
  {
  }

  lemma PlacedOwners(hash: Str -> Pos, ring: seq<Slot>, node: Str, n: nat)
    requires Ordered(ring)
    ensures Ordered(Placed(hash, ring, node, n)) && OwnerSet(Placed(hash, ring, node, n)) <= OwnerSet(ring) + {node}
  {
    hide Placed, Ordered;
  }

  lemma DropOwners(ring: seq<Slot>, node: Str)
    ensures OwnerSet(Drop(ring, node)) == OwnerSet(ring) - {node}
  {
    hide Drop;
  }

  lemma WithoutAt(s: seq<Str>, k: nat)
    requires k < |s| && Unique(s)
    ensures Without(s, s[k]) == s[..k] + s[k + 1..]
  {
    var x := s[k];
    assert s == s[..k] + ([x] + s[k + 1..]);
    WithoutConcat(s[..k], [x] + s[k + 1..], x);
    WithoutConcat([x], s[k + 1..], x);
    WithoutAbsent(s[..k], x);
    WithoutAbsent(s[k + 1..], x);
  }

  lemma {:induction false} DropConcat(a: seq<Slot>, b: seq<Slot>, node: Str)
    ensures Drop(a + b, node) == Drop(a, node) + Drop(b, node)
  {
    if a == [] {
      assert a + b == b;
    } else {
      assert (a + b)[1..] == a[1..] + b;
      DropConcat(a[1..], b, node);
    }
  }

  lemma DropAt(ring: seq<Slot>, i: nat)
    requires i < |ring|
    ensures Drop(ring[..i] + ring[i + 1..], ring[i].owner) == Drop(ring, ring[i].owner)
  {
    assert ring == ring[..i] + ring[i..];
    DropConcat(ring[..i], ring[i..], ring[i].owner);
    DropConcat(ring[..i], ring[i + 1..], ring[i].owner);
  }

  lemma {:induction false} FirstsHead(s: seq<Str>)
    requires s != []
    ensures Firsts(s) != [] && Firsts(s)[0] == s[0]
  {
    if |s| > 1 {
      FirstsHead(s[..|s| - 1]);
    }
  }

  /** A longer walk only appends. */
  lemma {:induction false} FirstsGrow(s: seq<Str>, n: nat)
    requires n <= |s|
    ensures Firsts(s[..n]) <= Firsts(s)
  {
    if n == |s| {
      assert s[..n] == s;
    } else {
      FirstsGrow(s[..|s| - 1], n);
      assert s[..|s| - 1][..n] == s[..n];
    }
  }
}
