/**
  The LRU cache: a linked list of entries in order of recency, and an index from keys to list nodes.
  A list node is an object, so that an index into the list survives a splice.
 */
module LruSpec {
  // ----- the cache as a value: pairs in order of recency, most recent first -----

  function Keys<K, V>(s: seq<(K, V)>): (r: seq<K>)
    ensures |r| == |s| && forall i :: 0 <= i < |r| ==> r[i] == s[i].0
  {
    if s == [] then [] else [s[0].0] + Keys(s[1..])
  }

  ghost predicate DistinctKeys<K, V>(s: seq<(K, V)>) {
    forall i, j :: 0 <= i < j < |s| ==> s[i].0 != s[j].0
  }

  /** The entries of other keys, in order. */
  function Others<K(==), V>(s: seq<(K, V)>, k: K): (r: seq<(K, V)>)
    ensures forall e :: e in r ==> e in s && e.0 != k
    ensures forall e :: e in s && e.0 != k ==> e in r
    ensures DistinctKeys(s) ==> DistinctKeys(r)
    ensures |r| <= |s|
    ensures (forall e :: e in s ==> e.0 != k) ==> r == s
  {
    if s == [] then [] else
      var r := Others(s[1..], k);
      if s[0].0 == k then r else [s[0]] + r
  }

  predicate Holds<K(==), V>(s: seq<(K, V)>, k: K) {
    exists i :: 0 <= i < |s| && s[i].0 == k
  }

  function Value<K(==), V>(s: seq<(K, V)>, k: K): (v: V)
    requires Holds(s, k)
    ensures (k, v) in s
  {
    if s[0].0 == k then s[0].1 else Value(s[1..], k)
  }

  /** A hit moves the entry to the front. */
  function AfterGet<K(==), V>(s: seq<(K, V)>, k: K): seq<(K, V)> {
    if Holds(s, k) then [(k, Value(s, k))] + Others(s, k) else s
  }

  /** A new key may push the last entry out. */
  function AfterPut<K(==), V>(s: seq<(K, V)>, capacity: nat, k: K, v: V): seq<(K, V)>
    requires capacity >= 1
  {
    var r := [(k, v)] + Others(s, k);
    if !Holds(s, k) && |r| > capacity then r[..|r| - 1] else r
  }

  // ----- runs -----

  datatype Op<K, V> = Get(k: K) | Put(k: K, v: V) | Erase(k: K)

  function Step<K(==), V>(s: seq<(K, V)>, capacity: nat, op: Op<K, V>): seq<(K, V)>
    requires capacity >= 1
  {
    match op
    case Get(k) => AfterGet(s, k)
    case Put(k, v) => AfterPut(s, capacity, k, v)
    case Erase(k) => Others(s, k)
  }

  function Run<K(==), V>(capacity: nat, ops: seq<Op<K, V>>): seq<(K, V)>
    requires capacity >= 1
  {
    if ops == [] then [] else Step(Run(capacity, ops[..|ops| - 1]), capacity, ops[|ops| - 1])
  }

  predicate Uses<K(==), V>(op: Op<K, V>, k: K) {
    !op.Erase? && op.k == k
  }

  /** When k was last got or put, counted from 1; 0 if never. */
  function LastUse<K(==), V>(ops: seq<Op<K, V>>, k: K): (r: nat)
    ensures r <= |ops|
  {
    if ops == [] then 0
    else if Uses(ops[|ops| - 1], k) then |ops|
    else LastUse(ops[..|ops| - 1], k)
  }

  /** When k was last put, counted from 1; 0 if never. */
  function LastPut<K(==), V>(ops: seq<Op<K, V>>, k: K): (r: nat)
    ensures r <= |ops| && (r > 0 ==> ops[r - 1].Put? && ops[r - 1].k == k)
  {
    if ops == [] then 0
    else if ops[|ops| - 1].Put? && ops[|ops| - 1].k == k then |ops|
    else LastPut(ops[..|ops| - 1], k)
  }

  /** Entries stand in order of last use, each with the value that was put last. */
  ghost predicate InOrder<K, V>(s: seq<(K, V)>, ops: seq<Op<K, V>>) {
    && (forall i, j :: 0 <= i < j < |s| ==> LastUse(ops, s[i].0) > LastUse(ops, s[j].0))
    && (forall i :: 0 <= i < |s| ==> LastPut(ops, s[i].0) > 0 && ops[LastPut(ops, s[i].0) - 1].v == s[i].1)
  }

  lemma Snoc<K, V>(ops: seq<Op<K, V>>, op: Op<K, V>, x: K)
    ensures LastUse(ops + [op], x) == if Uses(op, x) then |ops| + 1 else LastUse(ops, x)
    ensures LastPut(ops + [op], x) == if op.Put? && op.k == x then |ops| + 1 else LastPut(ops, x)
  {
    assert (ops + [op])[..|ops|] == ops;
  }

  lemma RunSnoc<K, V>(capacity: nat, ops: seq<Op<K, V>>, op: Op<K, V>)
    requires capacity >= 1
    ensures Run(capacity, ops + [op]) == Step(Run(capacity, ops), capacity, op)
  {
    assert (ops + [op])[..|ops|] == ops;
  }

  lemma HeadInOrder<K, V>(s: seq<(K, V)>, ops: seq<Op<K, V>>)
    requires InOrder(s, ops) && s != []
    ensures InOrder(s[1..], ops) && LastPut(ops, s[0].0) > 0 && ops[LastPut(ops, s[0].0) - 1].v == s[0].1
    ensures forall e :: e in s[1..] ==> LastUse(ops, s[0].0) > LastUse(ops, e.0)
  {
  }

  lemma {:induction false} OthersInOrder<K, V>(s: seq<(K, V)>, ops: seq<Op<K, V>>, op: Op<K, V>)
    requires InOrder(s, ops)
    ensures InOrder(Others(s, op.k), ops + [op])
  {
    hide LastUse, LastPut, InOrder;
    if s == [] {
      NoneInOrder(ops + [op]);
    } else {
      HeadInOrder(s, ops);
      OthersInOrder(s[1..], ops, op);
      if s[0].0 != op.k {
        Snoc(ops, op, s[0].0);
        var r := Others(s[1..], op.k);
        forall e | e in r
          ensures LastUse(ops + [op], s[0].0) > LastUse(ops + [op], e.0)
        {
          Snoc(ops, op, e.0);
        }
        FrontInOrder(r, s[0].0, s[0].1, ops + [op]);
        assert [s[0]] == [(s[0].0, s[0].1)];
      }
    }
  }

  lemma FrontInOrder<K, V>(r: seq<(K, V)>, k: K, v: V, ops: seq<Op<K, V>>)
    requires InOrder(r, ops) && forall e :: e in r ==> LastUse(ops, k) > LastUse(ops, e.0)
    requires LastPut(ops, k) > 0 && ops[LastPut(ops, k) - 1].v == v
    ensures InOrder([(k, v)] + r, ops)
  {
  }

  lemma StepInOrder<K, V>(s: seq<(K, V)>, capacity: nat, ops: seq<Op<K, V>>, op: Op<K, V>)
    requires capacity >= 1 && InOrder(s, ops)
    ensures InOrder(Step(s, capacity, op), ops + [op])
  {
    hide LastUse, LastPut, InOrder, Others, Value, Holds;
    OthersInOrder(s, ops, op);
    Snoc(ops, op, op.k);
    var r := Others(s, op.k);
    forall e | e in r
      ensures LastUse(ops + [op], e.0) <= |ops|
    {
      Snoc(ops, op, e.0);
    }
    if op.Get? && !Holds(s, op.k) {
      AbsentIsOther(s, op.k);
    }
    if op.Get? && Holds(s, op.k) {
      ValueInOrder(s, ops, op.k);
      FrontInOrder(r, op.k, Value(s, op.k), ops + [op]);
    }
    if op.Put? {
      FrontInOrder(r, op.k, op.v, ops + [op]);
      if !Holds(s, op.k) && 1 + |r| > capacity {
        CutInOrder([(op.k, op.v)] + r, ops + [op]);
      }
    }
  }

  lemma AbsentIsOther<K, V>(s: seq<(K, V)>, k: K)
    requires !Holds(s, k)
    ensures Others(s, k) == s
  {
    hide Others;
    assert forall i :: 0 <= i < |s| ==> s[i].0 != k;
  }

  lemma ValueInOrder<K, V>(s: seq<(K, V)>, ops: seq<Op<K, V>>, k: K)
    requires InOrder(s, ops) && Holds(s, k)
    ensures LastPut(ops, k) > 0 && ops[LastPut(ops, k) - 1].v == Value(s, k)
  {
  }

  lemma CutInOrder<K, V>(s: seq<(K, V)>, ops: seq<Op<K, V>>)
    requires InOrder(s, ops) && s != []
    ensures InOrder(s[..|s| - 1], ops)
  {
  }

  /**
    Over every run: keys are distinct, there are no more than the capacity, entries stand in order of
    last use, and each holds the value that was put last.
   */
  lemma {:induction false} RunInOrder<K, V>(capacity: nat, ops: seq<Op<K, V>>)
    requires capacity >= 1
    ensures var s := Run(capacity, ops);
            InOrder(s, ops) && DistinctKeys(s) && |s| <= capacity
  {
    hide Step, InOrder;
    if ops == [] {
      NoneInOrder(ops);
    } else {
      var init, op := ops[..|ops| - 1], ops[|ops| - 1];
      assert ops == init + [op];
      RunInOrder(capacity, init);
      RunSnoc(capacity, init, op);
      StepInOrder(Run(capacity, init), capacity, init, op);
      StepBounded(Run(capacity, init), capacity, op);
    }
  }

  lemma NoneInOrder<K, V>(ops: seq<Op<K, V>>)
    ensures InOrder([], ops)
  {
  }

  lemma {:induction false} OthersShorter<K, V>(s: seq<(K, V)>, k: K)
    ensures Holds(s, k) ==> |Others(s, k)| < |s|
  {
    if s != [] && s[0].0 != k && Holds(s, k) {
      assert Holds(s[1..], k);
      OthersShorter(s[1..], k);
    }
  }

  lemma StepBounded<K, V>(s: seq<(K, V)>, capacity: nat, op: Op<K, V>)
    requires capacity >= 1 && |s| <= capacity && DistinctKeys(s)
    ensures |Step(s, capacity, op)| <= capacity && DistinctKeys(Step(s, capacity, op))
  {
    OthersShorter(s, op.k);
    var r := Others(s, op.k);
    assert forall i :: 0 <= i < |r| ==> r[i] in r;
  }

  /** A key leaves the cache only if it is erased, or if it is the least recently used and a new key needs its place. */
  lemma EvictsLeastRecent<K, V>(capacity: nat, ops: seq<Op<K, V>>, op: Op<K, V>, x: K)
    requires capacity >= 1 && Holds(Run(capacity, ops), x) && !Holds(Run(capacity, ops + [op]), x)
    ensures var s := Run(capacity, ops);
            || op == Erase(x)
            || (&& op.Put? && !Holds(s, op.k) && |s| == capacity
                && forall y :: Holds(s, y) && y != x ==> LastUse(ops, y) > LastUse(ops, x))
  {
    hide Run, LastUse, LastPut;
    RunInOrder(capacity, ops);
    RunSnoc(capacity, ops, op);
    var s := Run(capacity, ops);
    if op != Erase(x) {
      StaysUnlessLast(s, capacity, op, x);
      assert s[|s| - 1].0 == x;
    }
  }

  lemma UsedStays<K, V>(s: seq<(K, V)>, capacity: nat, op: Op<K, V>)
    requires capacity >= 1 && Holds(s, op.k) && !op.Erase?
    ensures Holds(Step(s, capacity, op), op.k)
  {
    assert Step(s, capacity, op)[0].0 == op.k;
  }

  lemma StaysUnlessLast<K, V>(s: seq<(K, V)>, capacity: nat, op: Op<K, V>, x: K)
    requires capacity >= 1 && Holds(s, x) && |s| <= capacity && op != Erase(x)
    ensures
      || Holds(Step(s, capacity, op), x)
      || (op.Put? && !Holds(s, op.k) && |s| == capacity && s[|s| - 1].0 == x)
  {
    hide Others, Value;
    if op.k == x {
      UsedStays(s, capacity, op);
    } else {
      var i :| 0 <= i < |s| && s[i].0 == x;
      if op.Put? && !Holds(s, op.k) && 1 + |s| > capacity {
        assert Step(s, capacity, op) == [(op.k, op.v)] + s[..|s| - 1];
        assert i < |s| - 1 ==> Step(s, capacity, op)[i + 1] == s[i];
      } else {
        OthersStay(s, capacity, op, s[i]);
      }
    }
  }

  lemma OthersStay<K, V>(s: seq<(K, V)>, capacity: nat, op: Op<K, V>, e: (K, V))
    requires capacity >= 1 && e in s && e.0 != op.k && |s| <= capacity
    requires !(op.Put? && !Holds(s, op.k) && 1 + |s| > capacity)
    ensures e in Step(s, capacity, op)
  {
    OthersShorter(s, op.k);
  }
}

module LruCache {
  import opened Wire
  import opened LruSpec

  /** A node of the recency list. */
  class Entry<K, V> {
    const key: K
    var value: V

    constructor (key: K, value: V)
      ensures this.key == key && this.value == value
    {
      this.key := key;
      this.value := value;
    }
  }

  ghost function Pairs<K, V>(order: seq<Entry<K, V>>): (r: seq<(K, V)>)
    reads order
    ensures |r| == |order| && forall i :: 0 <= i < |r| ==> r[i] == (order[i].key, order[i].value)
  {
    if order == [] then [] else [(order[0].key, order[0].value)] + Pairs(order[1..])
  }

  /** The list without the given node. */
  function Unlinked<K, V>(order: seq<Entry<K, V>>, e: Entry<K, V>): (r: seq<Entry<K, V>>)
    ensures forall x :: x in r ==> x in order && x != e
    ensures forall x :: x in order && x != e ==> x in r
  {
    if order == [] then [] else
      var r := Unlinked(order[1..], e);
      if order[0] == e then r else [order[0]] + r
  }

  ghost predicate OneEach<K, V>(order: seq<Entry<K, V>>) {
    forall i, j :: 0 <= i < j < |order| ==> order[i].key != order[j].key
  }

  /** The list and the index hold the same nodes, and no key twice. */
  ghost predicate Linked<K, V>(order: seq<Entry<K, V>>, index: map<K, Entry<K, V>>) {
    && (forall e :: e in order ==> e.key in index && index[e.key] == e)
    && (forall k :: k in index ==> index[k] in order && index[k].key == k)
    && OneEach(order)
  }

  lemma {:induction false} UnlinkedPairs<K, V>(order: seq<Entry<K, V>>, e: Entry<K, V>)
    requires forall x :: x in order && x != e ==> x.key != e.key
    ensures Pairs(Unlinked(order, e)) == Others(Pairs(order), e.key)
  {
    if order != [] {
      UnlinkedPairs(order[1..], e);
      var rest := Unlinked(order[1..], e);
      assert ([order[0]] + rest)[1..] == rest;
    }
  }

  lemma HeadOneEach<K, V>(order: seq<Entry<K, V>>)
    requires OneEach(order) && order != []
    ensures OneEach(order[1..]) && forall x :: x in order[1..] ==> x.key != order[0].key
  {
  }

  lemma ConsOneEach<K, V>(e: Entry<K, V>, r: seq<Entry<K, V>>)
    requires OneEach(r) && forall x :: x in r ==> x.key != e.key
    ensures OneEach([e] + r)
  {
    assert forall i :: 0 <= i < |r| ==> r[i] in r;
  }

  lemma {:induction false} UnlinkedOneEach<K, V>(order: seq<Entry<K, V>>, e: Entry<K, V>)
    requires OneEach(order)
    ensures OneEach(Unlinked(order, e)) && |Unlinked(order, e)| == |order| - if e in order then 1 else 0
  {
    if order != [] {
      hide OneEach;
      HeadOneEach(order);
      UnlinkedOneEach(order[1..], e);
      if order[0] == e {
        assert e !in order[1..];
      } else {
        ConsOneEach(order[0], Unlinked(order[1..], e));
      }
    }
  }

  lemma FrontPairs<K, V>(e: Entry<K, V>, r: seq<Entry<K, V>>)
    ensures Pairs([e] + r) == [(e.key, e.value)] + Pairs(r)
  {
    assert ([e] + r)[1..] == r;
  }

  /** Taking a node out of the list. */
  lemma TakenOut<K, V>(order: seq<Entry<K, V>>, index: map<K, Entry<K, V>>, e: Entry<K, V>)
    requires Linked(order, index) && e in order
    ensures Linked(Unlinked(order, e), index - {e.key}) && |Unlinked(order, e)| == |order| - 1
    ensures Pairs(Unlinked(order, e)) == Others(Pairs(order), e.key)
  {
    hide Unlinked, Pairs;
    UnlinkedOneEach(order, e);
    UnlinkedPairs(order, e);
  }

  /** Putting a node in front. */
  lemma PutInFront<K, V>(order: seq<Entry<K, V>>, index: map<K, Entry<K, V>>, e: Entry<K, V>)
    requires Linked(order, index) && e.key !in index
    ensures Linked([e] + order, index[e.key := e])
  {
    assert forall i :: 0 <= i < |order| ==> order[i] in order;
  }

  /** Taking a node out and putting it in front again. */
  lemma Spliced<K, V>(order: seq<Entry<K, V>>, index: map<K, Entry<K, V>>, e: Entry<K, V>)
    requires Linked(order, index) && e in order
    ensures Linked([e] + Unlinked(order, e), index) && |Unlinked(order, e)| == |order| - 1
    ensures Pairs(Unlinked(order, e)) == Others(Pairs(order), e.key)
  {
    hide Unlinked, Pairs, OneEach, Linked;
    IndexOf(order, index, e);
    TakenOut(order, index, e);
    PutInFront(Unlinked(order, e), index - {e.key}, e);
    assert (index - {e.key})[e.key := e] == index;
  }

  lemma IndexOf<K, V>(order: seq<Entry<K, V>>, index: map<K, Entry<K, V>>, e: Entry<K, V>)
    requires Linked(order, index) && e in order
    ensures e.key in index && index[e.key] == e
  {
  }

  lemma LastAlone<K, V>(order: seq<Entry<K, V>>)
    requires OneEach(order) && order != []
    ensures OneEach(order[..|order| - 1])
    ensures forall x :: x in order[..|order| - 1] ==> x in order && x.key != order[|order| - 1].key
    ensures forall x :: x in order && x != order[|order| - 1] ==> x in order[..|order| - 1]
  {
  }

  lemma LastOut<K, V>(order: seq<Entry<K, V>>, index: map<K, Entry<K, V>>)
    requires Linked(order, index) && order != []
    ensures Linked(order[..|order| - 1], index - {order[|order| - 1].key})
    ensures Pairs(order[..|order| - 1]) == Pairs(order)[..|order| - 1]
  {
    hide OneEach, Pairs;
    LastAlone(order);
    assert order[|order| - 1] in order;
  }

  lemma {:induction false} LinkedSize<K, V>(order: seq<Entry<K, V>>, index: map<K, Entry<K, V>>)
    requires Linked(order, index)
    ensures |index| == |order|
  {
    if order == [] {
      assert index.Keys == {};
    } else {
      hide Pairs, OneEach;
      var last, init := order[|order| - 1], order[..|order| - 1];
      var less := index - {last.key};
      LastOut(order, index);
      LinkedSize(init, less);
      assert last in order;
      assert index.Keys == less.Keys + {last.key};
      assert |index| == |index.Keys| && |less| == |less.Keys|;
    }
  }

  class LruCache<K(==), V> {
    const capacity: nat
    var order: seq<Entry<K, V>>
    var index: map<K, Entry<K, V>>
    var hits: nat
    var misses: nat

    ghost predicate Valid()
      reads this
    {
      capacity >= 1 && |order| <= capacity && Linked(order, index)
    }

    ghost function Contents(): seq<(K, V)>
      reads this, order
    {
      Pairs(order)
    }

    constructor (capacity: nat)
      ensures Valid() && Contents() == [] && order == [] && hits == misses == 0
      ensures this.capacity == if capacity == 0 then 1 else capacity
    {
      this.capacity := if capacity == 0 then 1 else capacity;
      order := [];
      index := map[];
      hits, misses := 0, 0;
    }

    /** Some value, or None on a miss. */
    method Get(key: K) returns (r: Option<V>)
      requires Valid()
      modifies this
      ensures Valid() && (forall e :: e in order ==> e in old(order)) && (r.None? ==> order == old(order))
      ensures Contents() == AfterGet(old(Contents()), key)
      ensures r == if Holds(old(Contents()), key) then Some(Value(old(Contents()), key)) else None
      ensures hits + misses == old(hits + misses) + 1 && hits == old(hits) + if r.Some? then 1 else 0
    {
      hide Linked, Unlinked, Pairs, Others, Holds, Value;
      HoldsIndexed(order, index, key);
      if key !in index {
        misses := misses + 1;
        return None;
      }
      hits := hits + 1;
      var e := index[key];
      Spliced(order, index, e);
      order := [e] + Unlinked(order, e);
      FrontPairs(e, Unlinked(old(order), e));
      return Some(e.value);
    }

    method Put(key: K, value: V)
      requires Valid()
      modifies this, order
      ensures Valid() && (forall e :: e in order ==> e in old(order) || fresh(e))
      ensures Contents() == AfterPut(old(Contents()), capacity, key, value)
    {
      hide Linked, Unlinked, Pairs, Others, Holds, Value;
      HoldsIndexed(order, index, key);
      if key in index {
        var e := index[key];
        Spliced(order, index, e);
        e.value := value;
        order := [e] + Unlinked(order, e);
        FrontPairs(e, Unlinked(old(order), e));
        return;
      }
      Insert(key, value);
    }

    /** The branch of Put for a new key. */
    method Insert(key: K, value: V)
      requires Valid() && key !in index
      modifies this
      ensures Valid() && (forall e :: e in order ==> e in old(order) || fresh(e))
      ensures Contents() == AfterPut(old(Contents()), capacity, key, value)
    {
      hide Linked, Unlinked, Pairs, Others, Holds, Value;
      HoldsIndexed(order, index, key);
      AbsentOthers(order, index, key);
      ghost var r := [(key, value)] + Pairs(order);
      var e := new Entry(key, value);
      PutInFront(order, index, e);
      FrontPairs(e, order);
      var list, table := [e] + order, index[key := e];
      LinkedSize(list, table);
      assert Pairs(list) == r;
      if |table| > capacity {
        LastOut(list, table);
        var evict := list[|list| - 1].key;
        table := table - {evict};
        list := list[..|list| - 1];
        assert Pairs(list) == r[..|r| - 1];
      }
      order, index := list, table;
    }

    method Erase(key: K)
      requires Valid()
      modifies this
      ensures Valid() && (forall e :: e in order ==> e in old(order))
      ensures Contents() == Others(old(Contents()), key)
    {
      hide Linked, Unlinked, Pairs, Others, Holds, Value;
      HoldsIndexed(order, index, key);
      if key in index {
        var e := index[key];
        TakenOut(order, index, e);
        order := Unlinked(order, e);
        index := index - {key};
      } else {
        AbsentOthers(order, index, key);
      }
    }
  }

  lemma AbsentOthers<K, V>(order: seq<Entry<K, V>>, index: map<K, Entry<K, V>>, k: K)
    requires Linked(order, index) && k !in index
    ensures Others(Pairs(order), k) == Pairs(order)
  {
    hide Others;
    assert forall i :: 0 <= i < |order| ==> order[i] in order;
  }

  lemma HoldsIndexed<K, V>(order: seq<Entry<K, V>>, index: map<K, Entry<K, V>>, k: K)
    requires Linked(order, index)
    ensures Holds(Pairs(order), k) <==> k in index
    ensures k in index ==> index[k] in order && index[k].key == k && Value(Pairs(order), k) == index[k].value
  {
    hide Pairs, Value;
    assert forall i :: 0 <= i < |order| ==> order[i] in order;
    if k in index {
      var i :| 0 <= i < |order| && order[i] == index[k];
      assert Pairs(order)[i].0 == k;
    }
  }
}
