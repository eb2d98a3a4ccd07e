/**
  The metadata view that answers lookups from an LRU cache, for sequential callers. The view behind it may
  be remote: its lookups may fail, and its updates may be refused or take effect unconfirmed.
 */
module CachingView {
  import opened ByteStrings
  import opened Wire
  import opened Metadata
  import opened LruSpec
  import opened LruCache

  // ----- the view as a value -----

  datatype View = View(cache: seq<(Str, ObjectLocation)>, repo: Repo)

  /** `finds` and `reply` tell how the inner view fares. */
  datatype Request = Lookup(key: Str, finds: bool) | Register(loc: ObjectLocation, reply: Reply) | Remove(key: Str, reply: Reply)

  datatype Answer = Found(loc: ObjectLocation) | NotFound | Done | Failed

  /** What the inner view does. */
  function Plain(repo: Repo, req: Request): (Repo, Answer) {
    match req
    case Lookup(key, finds) =>
      (repo, if !finds then Failed else if Live(repo, key) then Found(repo.objects[key]) else NotFound)
    case Register(loc, reply) =>
      (if reply == Refused then repo else WithObject(repo, loc), if reply == Heard then Done else Failed)
    case Remove(key, reply) =>
      (if reply == Refused then repo else WithoutObject(repo, key),
       if reply != Heard then Failed else if Live(repo, key) then Done else NotFound)
  }

  /**
    What the view does: a lookup that misses and finds, and a register that is confirmed, fill the cache; a
    remove empties the entry, whatever becomes of it.
   */
  function Cached(v: View, capacity: nat, req: Request): (View, Answer)
    requires capacity >= 1
  {
    var (repo, answer) := Plain(v.repo, req);
    match req
    case Lookup(key, _) =>
      if Holds(v.cache, key) then (v.(cache := AfterGet(v.cache, key)), Found(Value(v.cache, key)))
      else if answer.Found? then (v.(cache := AfterPut(v.cache, capacity, key, answer.loc)), answer)
      else (v, answer)
    case Register(loc, reply) =>
      (View(if reply == Heard then AfterPut(v.cache, capacity, loc.key, loc) else v.cache, repo), answer)
    case Remove(key, _) => (View(Others(v.cache, key), repo), answer)
  }

  /** The answer is that of the inner view, or the one it would have given to a lookup that it could not answer. */
  predicate Agrees(repo: Repo, req: Request, answer: Answer) {
    answer == Plain(repo, req).1 || (req.Lookup? && answer == Plain(repo, req.(finds := true)).1)
  }

  /** Whatever the cache holds is what the repository would answer. */
  ghost predicate Coherent(v: View) {
    forall e :: e in v.cache ==> Find(v.repo, e.0) == Some(e.1)
  }

  lemma PutEntries(s: seq<(Str, ObjectLocation)>, capacity: nat, k: Str, loc: ObjectLocation)
    requires capacity >= 1
    ensures (k, loc) in AfterPut(s, capacity, k, loc)
    ensures forall e :: e in AfterPut(s, capacity, k, loc) ==> e == (k, loc) || (e in s && e.0 != k)
  {
    hide Others, Holds;
    var r := Others(s, k);
    if |r| > 0 || 1 <= capacity {
      assert AfterPut(s, capacity, k, loc)[0] == (k, loc);
    }
  }

  lemma GetEntries(s: seq<(Str, ObjectLocation)>, k: Str)
    ensures forall e :: e in AfterGet(s, k) ==> e in s
  {
  }

  /** The request leaves the cache with a location that the inner view would not give. */
  predicate Spoils(v: View, req: Request) {
    && req.Register?
    && (|| (req.reply == Heard && req.loc.deleted)
        || (req.reply == Unheard && Holds(v.cache, req.loc.key) && (req.loc.deleted || Value(v.cache, req.loc.key) != req.loc)))
  }

  lemma CachedOnce(v: View, k: Str)
    requires Coherent(v) && Holds(v.cache, k)
    ensures (k, Value(v.cache, k)) in v.cache && Live(v.repo, k) && v.repo.objects[k] == Value(v.cache, k)
    ensures forall e :: e in v.cache && e.0 == k ==> e.1 == Value(v.cache, k)
  {
  }

  /**
    A coherent view agrees with the inner one. It stays coherent exactly if the request does not spoil it: by
    registering a location that is marked deleted, or by an unconfirmed register over another cached location.
   */
  lemma StepCoherent(v: View, capacity: nat, req: Request)
    requires capacity >= 1 && Coherent(v)
    ensures Coherent(Cached(v, capacity, req).0) <==> !Spoils(v, req)
    ensures Cached(v, capacity, req).0.repo == Plain(v.repo, req).0 && Agrees(v.repo, req, Cached(v, capacity, req).1)
  {
    hide AfterPut, AfterGet, Others, Value;
    match req
    case Lookup(key, finds) =>
      GetEntries(v.cache, key);
      if Holds(v.cache, key) {
        CachedOnce(v, key);
      } else if Plain(v.repo, req).1.Found? {
        PutEntries(v.cache, capacity, key, Plain(v.repo, req).1.loc);
      }
    case Register(loc, reply) =>
      PutEntries(v.cache, capacity, loc.key, loc);
      if reply == Unheard {
        UnheardCoherent(v, loc);
      }
    case Remove(key, _) =>
  }

  lemma UnheardCoherent(v: View, loc: ObjectLocation)
    requires Coherent(v)
    ensures Coherent(View(v.cache, WithObject(v.repo, loc))) <==> !Spoils(v, Register(loc, Unheard))
  {
    hide Value;
    if Holds(v.cache, loc.key) {
      CachedOnce(v, loc.key);
    } else {
      assert forall e :: e in v.cache ==> e.0 != loc.key by {
        NotHeld(v.cache, loc.key);
      }
    }
  }

  lemma NotHeld(s: seq<(Str, ObjectLocation)>, k: Str)
    requires !Holds(s, k)
    ensures forall e :: e in s ==> e.0 != k
  {
  }

  function CachedRun(v: View, capacity: nat, reqs: seq<Request>): (View, seq<Answer>)
    requires capacity >= 1
    decreases |reqs|
  {
    if reqs == [] then (v, []) else
      var (w, a) := Cached(v, capacity, reqs[0]);
      var (z, rest) := CachedRun(w, capacity, reqs[1..]);
      (z, [a] + rest)
  }

  /** No request of the run spoils the view as it then is. */
  predicate NeverSpoils(v: View, capacity: nat, reqs: seq<Request>)
    requires capacity >= 1
    decreases |reqs|
  {
    reqs == [] || (!Spoils(v, reqs[0]) && NeverSpoils(Cached(v, capacity, reqs[0]).0, capacity, reqs[1..]))
  }

  /** The answers of the run, one by one, agree with those of the inner view. */
  predicate AllAgree(repo: Repo, reqs: seq<Request>, answers: seq<Answer>)
    decreases |reqs|
  {
    if reqs == [] then answers == []
    else answers != [] && Agrees(repo, reqs[0], answers[0]) && AllAgree(Plain(repo, reqs[0]).0, reqs[1..], answers[1..])
  }

  /** Every sequential run that spoils nothing gets the answers it would get without the cache. */
  lemma {:induction false} CachedRunAgrees(v: View, capacity: nat, reqs: seq<Request>)
    requires capacity >= 1 && Coherent(v) && NeverSpoils(v, capacity, reqs)
    ensures AllAgree(v.repo, reqs, CachedRun(v, capacity, reqs).1) && Coherent(CachedRun(v, capacity, reqs).0)
    decreases |reqs|
  {
    hide Cached, Plain, Coherent, Spoils, Agrees;
    if reqs != [] {
      StepCoherent(v, capacity, reqs[0]);
      var w := Cached(v, capacity, reqs[0]);
      CachedRunAgrees(w.0, capacity, reqs[1..]);
      var rest := CachedRun(w.0, capacity, reqs[1..]).1;
      assert ([w.1] + rest)[1..] == rest;
    }
  }

  lemma PutHolds(s: seq<(Str, ObjectLocation)>, capacity: nat, loc: ObjectLocation)
    requires capacity >= 1
    ensures Holds(AfterPut(s, capacity, loc.key, loc), loc.key) && Value(AfterPut(s, capacity, loc.key, loc), loc.key) == loc
  {
    hide Others;
    var t := AfterPut(s, capacity, loc.key, loc);
    assert t[0] == (loc.key, loc);
  }

  /** Right after a confirmed register, a lookup through the view agrees with the inner one exactly if the location is live. */
  lemma RegisterThenLookup(v: View, capacity: nat, loc: ObjectLocation)
    requires capacity >= 1
    ensures var w := Cached(v, capacity, Register(loc, Heard)).0;
            Cached(w, capacity, Lookup(loc.key, true)).1 == Plain(w.repo, Lookup(loc.key, true)).1 <==> !loc.deleted
  {
    hide AfterPut, AfterGet, Holds, Value;
    PutHolds(v.cache, capacity, loc);
  }

  /** Right after an unconfirmed register, it agrees exactly if the key is not cached, or cached with that live location. */
  lemma UnconfirmedThenLookup(v: View, capacity: nat, loc: ObjectLocation)
    requires capacity >= 1
    ensures var w := Cached(v, capacity, Register(loc, Unheard)).0;
            Cached(w, capacity, Lookup(loc.key, true)).1 == Plain(w.repo, Lookup(loc.key, true)).1 <==>
            !Holds(v.cache, loc.key) || (!loc.deleted && Value(v.cache, loc.key) == loc)
  {
    hide AfterPut, AfterGet, Holds, Value;
  }

  // ----- the class -----

  class CachingMetadataView {
    const inner: MetadataRepository
    const cache: LruCache<Str, ObjectLocation>

    ghost predicate Valid()
      reads this, inner, inner.ring, cache
    {
      inner.Valid() && cache.Valid()
    }

    ghost function State(): View
      reads this, inner, inner.ring, cache, cache.order
    {
      View(cache.Contents(), inner.Value())
    }

    constructor (inner: MetadataRepository, capacity: nat)
      requires inner.Valid()
      ensures Valid() && this.inner == inner && fresh(cache) && cache.order == []
      ensures State() == View([], inner.Value()) && Coherent(State())
    {
      this.inner := inner;
      cache := new LruCache(capacity);
    }

    method LookupObject(key: Str, finds: bool) returns (r: Answer)
      requires Valid()
      modifies cache, cache.order
      ensures Valid() && (forall e :: e in cache.order ==> e in old(cache.order) || fresh(e))
      ensures (State(), r) == Cached(old(State()), cache.capacity, Lookup(key, finds))
      ensures old(Coherent(State())) ==> Coherent(State()) && Agrees(State().repo, Lookup(key, finds), r)
    {
      hide Linked, AfterPut, AfterGet, Holds, Value, Coherent, HashRing.OwnerSet, HashRing.Members, HashRing.Unique;
      ghost var v := State();
      var hit := cache.Get(key);
      Misses(v.cache, key);
      if hit.Some? {
        r := Found(hit.value);
      } else {
        r := Failed;
        if finds {
          var found := inner.LookupObject(key);
          r := if found.Some? then Found(found.value) else NotFound;
        }
        if r.Found? {
          cache.Put(key, r.loc);
        }
      }
      assert (State(), r) == Cached(v, cache.capacity, Lookup(key, finds));
      if Coherent(v) {
        StepCoherent(v, cache.capacity, Lookup(key, finds));
      }
    }

    method RegisterObject(loc: ObjectLocation, reply: Reply) returns (r: Answer)
      requires Valid()
      modifies inner, cache, cache.order
      ensures Valid() && (forall e :: e in cache.order ==> e in old(cache.order) || fresh(e))
      ensures (State(), r) == Cached(old(State()), cache.capacity, Register(loc, reply))
      ensures old(Coherent(State())) ==> (Coherent(State()) <==> !Spoils(old(State()), Register(loc, reply)))
    {
      hide Linked, AfterPut, AfterGet, Holds, Value, Coherent, HashRing.OwnerSet, HashRing.Members, HashRing.Unique;
      ghost var v := State();
      if reply != Refused {
        inner.RegisterObject(loc);
      }
      if reply == Heard {
        cache.Put(loc.key, loc);
      }
      r := if reply == Heard then Done else Failed;
      if Coherent(v) {
        StepCoherent(v, cache.capacity, Register(loc, reply));
      }
    }

    method RemoveObject(key: Str, reply: Reply) returns (r: Answer)
      requires Valid()
      modifies inner, cache
      ensures Valid() && (forall e :: e in cache.order ==> e in old(cache.order))
      ensures (State(), r) == Cached(old(State()), cache.capacity, Remove(key, reply))
      ensures old(Coherent(State())) ==> Coherent(State())
    {
      hide Linked, Coherent, Others, HashRing.OwnerSet, HashRing.Members, HashRing.Unique;
      ghost var v := State();
      var ok := false;
      if reply != Refused {
        ok := inner.RemoveObject(key);
      }
      cache.Erase(key);
      r := if reply != Heard then Failed else if ok then Done else NotFound;
      if Coherent(v) {
        StepCoherent(v, cache.capacity, Remove(key, reply));
      }
    }
  }

  lemma Misses(s: seq<(Str, ObjectLocation)>, k: Str)
    ensures !Holds(s, k) ==> AfterGet(s, k) == s
  {
  }
}
