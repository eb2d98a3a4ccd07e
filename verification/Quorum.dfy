/**
  Quorum writes, reads and repair over storage nodes. A node is what it answers to the coordinator:
  per key, the bytes on its disk and the row it committed for them. Which nodes answer, and how the
  metadata service answers, are parameters of each call. A call to a node that was not acknowledged has no
  effect; an update of the metadata service may fail, or take effect without the caller hearing of it.
 */
module Quorum {
  import opened ByteStrings
  import opened Wire
  import opened HashRing
  import opened Metadata

  /** One node's copy of one object; `bytes` are None if the payload file cannot be read. */
  datatype Copy = Copy(bytes: Option<Str>, checksum: Str, version: nat, deleted: bool)

  datatype Cloud = Cloud(copies: map<(Str, Str), Copy>, repo: Repo)

  /** `clients` are the nodes that the coordinator can talk to. */
  datatype Settings = Settings(sum: Str -> Str, hash: Str -> Pos, replicationFactor: nat, writeQuorum: nat, clients: set<Str>)

  function PlacementFor(cfg: Settings, repo: Repo, key: Str): seq<Str> {
    Take(Preference(repo.ring, cfg.hash(key)), HashRing.Min(cfg.replicationFactor, |repo.members|))
  }

  // ----- writes -----

  function Acked(replicas: seq<Str>, oks: set<Str>): (r: seq<Str>)
    ensures forall n :: n in r <==> n in replicas && n in oks
    ensures |r| <= |replicas|
  {
    if replicas == [] then [] else
      var rest := Acked(replicas[..|replicas| - 1], oks);
      assert replicas == replicas[..|replicas| - 1] + [replicas[|replicas| - 1]];
      if replicas[|replicas| - 1] in oks then rest + [replicas[|replicas| - 1]] else rest
  }

  /** The same copy on each of the nodes. */
  function Stored(copies: map<(Str, Str), Copy>, nodes: seq<Str>, key: Str, copy: Copy): map<(Str, Str), Copy> {
    if nodes == [] then copies else Stored(copies, nodes[..|nodes| - 1], key, copy)[(nodes[|nodes| - 1], key) := copy]
  }

  lemma {:induction false} StoredAt(copies: map<(Str, Str), Copy>, nodes: seq<Str>, key: Str, copy: Copy, n: Str, k: Str)
    ensures var d := Stored(copies, nodes, key, copy);
            if k == key && n in nodes then (n, k) in d && d[(n, k)] == copy
            else ((n, k) in d <==> (n, k) in copies) && ((n, k) in copies ==> d[(n, k)] == copies[(n, k)])
  {
    if nodes != [] {
      StoredAt(copies, nodes[..|nodes| - 1], key, copy, n, k);
      assert nodes == nodes[..|nodes| - 1] + [nodes[|nodes| - 1]];
    }
  }

  /** How the metadata service answers during one call: its placement, its lookup and its update. */
  datatype Service = Service(places: bool, finds: bool, reply: Reply)

  /** A placement that is not answered reads as empty. */
  function SeenPlacement(cfg: Settings, repo: Repo, key: Str, places: bool): seq<Str> {
    if places then PlacementFor(cfg, repo, key) else []
  }

  /** The metadata service is the version authority; an object that is not found starts at 1. */
  function NextVersion(repo: Repo, key: Str, finds: bool): nat {
    if finds && Live(repo, key) then repo.objects[key].version + 1 else 1
  }

  function Acks(cfg: Settings, c: Cloud, key: Str, oks: set<Str>, places: bool): seq<Str> {
    Acked(SeenPlacement(cfg, c.repo, key, places), oks * cfg.clients)
  }

  /** Enough replicas are placed for the put to go ahead. */
  predicate Tried(cfg: Settings, c: Cloud, key: Str, svc: Service) {
    |SeenPlacement(cfg, c.repo, key, svc.places)| >= cfg.writeQuorum
  }

  /** The put met its quorum, and its location was registered. */
  predicate Registers(cfg: Settings, c: Cloud, key: Str, oks: set<Str>, svc: Service) {
    Tried(cfg, c, key, svc) && |Acks(cfg, c, key, oks, svc.places)| >= cfg.writeQuorum && svc.reply != Refused
  }

  /** The caller was told Ok. */
  predicate PutOk(cfg: Settings, c: Cloud, key: Str, oks: set<Str>, svc: Service) {
    Registers(cfg, c, key, oks, svc) && svc.reply == Heard
  }

  function NewCopy(cfg: Settings, c: Cloud, key: Str, data: Str, svc: Service): Copy {
    Copy(Some(data), cfg.sum(data), NextVersion(c.repo, key, svc.finds), false)
  }

  function NewLocation(cfg: Settings, c: Cloud, key: Str, data: Str, oks: set<Str>, svc: Service): ObjectLocation {
    ObjectLocation(key, NextVersion(c.repo, key, svc.finds), cfg.sum(data), |data|, false, Acks(cfg, c, key, oks, svc.places))
  }

  function AfterPut(cfg: Settings, c: Cloud, key: Str, data: Str, oks: set<Str>, svc: Service): Cloud {
    if !Tried(cfg, c, key, svc) then c
    else Cloud(Stored(c.copies, Acks(cfg, c, key, oks, svc.places), key, NewCopy(cfg, c, key, data, svc)),
               if Registers(cfg, c, key, oks, svc) then WithObject(c.repo, NewLocation(cfg, c, key, data, oks, svc)) else c.repo)
  }

  // ----- deletes -----

  /** A node tombstones its copy; a missing one counts as deleted. */
  function Dropped(copies: map<(Str, Str), Copy>, n: Str, key: Str): map<(Str, Str), Copy> {
    if (n, key) in copies then copies[(n, key) := copies[(n, key)].(deleted := true)] else copies
  }

  function DroppedAll(copies: map<(Str, Str), Copy>, nodes: seq<Str>, key: Str): map<(Str, Str), Copy> {
    if nodes == [] then copies else Dropped(DroppedAll(copies, nodes[..|nodes| - 1], key), nodes[|nodes| - 1], key)
  }

  function AfterDelete(cfg: Settings, c: Cloud, key: Str, oks: set<Str>, svc: Service): Cloud {
    var acked := Acks(cfg, c, key, oks, svc.places);
    Cloud(DroppedAll(c.copies, acked, key),
          if |acked| < cfg.writeQuorum || svc.reply == Refused then c.repo else WithoutObject(c.repo, key))
  }

  // ----- reads -----

  datatype ReadReply = Bytes(bytes: Str) | NotFound | Unreachable | IoError | ChecksumMismatch

  /** A node serves bytes only under the checksum it committed for them. */
  function NodeGet(cfg: Settings, c: Cloud, up: set<Str>, n: Str, key: Str): ReadReply {
    if n !in up then Unreachable
    else if (n, key) !in c.copies || c.copies[(n, key)].deleted then NotFound
    else if c.copies[(n, key)].bytes.None? then IoError
    else if cfg.sum(c.copies[(n, key)].bytes.value) != c.copies[(n, key)].checksum then ChecksumMismatch
    else Bytes(c.copies[(n, key)].bytes.value)
  }

  predicate Serves(cfg: Settings, c: Cloud, up: set<Str>, n: Str, key: Str) {
    n in cfg.clients && NodeGet(cfg, c, up, n, key).Bytes?
  }

  /** The bytes of the first replica that serves the object, or else the reply of the last one that was asked. */
  function ReadFrom(cfg: Settings, c: Cloud, replicas: seq<Str>, key: Str, up: set<Str>, last: ReadReply): (r: ReadReply)
    requires !last.Bytes?
    ensures r.Bytes? <==> exists n :: n in replicas && Serves(cfg, c, up, n, key)
    ensures r.Bytes? ==> exists n :: n in replicas && Serves(cfg, c, up, n, key) && NodeGet(cfg, c, up, n, key) == r
    decreases |replicas|
  {
    if replicas == [] then last
    else if replicas[0] !in cfg.clients then ReadFrom(cfg, c, replicas[1..], key, up, last)
    else
      var r := NodeGet(cfg, c, up, replicas[0], key);
      assert r.Bytes? <==> Serves(cfg, c, up, replicas[0], key);
      if r.Bytes? then r else ReadFrom(cfg, c, replicas[1..], key, up, r)
  }

  function GetReply(cfg: Settings, c: Cloud, key: Str, up: set<Str>, finds: bool): ReadReply {
    if !finds then Unreachable
    else if !Live(c.repo, key) then NotFound
    else if c.repo.objects[key].replicas == [] then Unreachable
    else ReadFrom(cfg, c, c.repo.objects[key].replicas, key, up, NotFound)
  }

  // ----- repair -----

  datatype Verdict = NotPlaced | AlreadyCurrent | Copied | Failed

  /**
    Who answers during a repair: the nodes that are up, and the keys whose placement is answered, whose copy
    the target acknowledges, and whose new location is registered. The repairer ignores the last reply.
   */
  datatype Answers = Answers(up: set<Str>, placed: set<Str>, stored: set<Str>, registered: set<Str>)

  predicate IsPlaced(cfg: Settings, repo: Repo, target: Str, key: Str, ans: Answers) {
    target in SeenPlacement(cfg, repo, key, key in ans.placed)
  }

  /** What a repair of `target` finds to do about an object. */
  function Judge(cfg: Settings, c: Cloud, target: Str, loc: ObjectLocation, ans: Answers): Verdict {
    if !IsPlaced(cfg, c.repo, target, loc.key, ans) then NotPlaced
    else if target in loc.replicas then AlreadyCurrent
    else if Source(cfg, c, loc.replicas, loc, ans.up).Some? && loc.key in ans.stored then Copied
    else Failed
  }

  /** The bytes of the first registered replica that answers with the registered checksum. */
  function Source(cfg: Settings, c: Cloud, replicas: seq<Str>, loc: ObjectLocation, up: set<Str>): (r: Option<Str>)
    ensures r.Some? ==> cfg.sum(r.value) == loc.checksum
  {
    if replicas == [] then None
    else if Serves(cfg, c, up, replicas[0], loc.key) && cfg.sum(NodeGet(cfg, c, up, replicas[0], loc.key).bytes) == loc.checksum
    then Some(NodeGet(cfg, c, up, replicas[0], loc.key).bytes)
    else Source(cfg, c, replicas[1..], loc, up)
  }

  function AfterRepairOne(cfg: Settings, c: Cloud, target: Str, loc: ObjectLocation, ans: Answers): Cloud {
    if Judge(cfg, c, target, loc, ans) == Copied then
      var data := Source(cfg, c, loc.replicas, loc, ans.up).value;
      Cloud(c.copies[(target, loc.key) := Copy(Some(data), cfg.sum(data), loc.version, false)],
            if loc.key in ans.registered then WithObject(c.repo, loc.(replicas := loc.replicas + [target])) else c.repo)
    else c
  }

  function AfterRepair(cfg: Settings, c: Cloud, target: Str, objects: seq<ObjectLocation>, ans: Answers): Cloud {
    if objects == [] then c
    else AfterRepairOne(cfg, AfterRepair(cfg, c, target, objects[..|objects| - 1], ans), target, objects[|objects| - 1], ans)
  }

  /** Every live object once, in some order. */
  ghost predicate Lists(repo: Repo, objects: seq<ObjectLocation>) {
    && (forall i :: 0 <= i < |objects| ==> Live(repo, objects[i].key) && repo.objects[objects[i].key] == objects[i])
    && (forall i, j :: 0 <= i < j < |objects| ==> objects[i].key != objects[j].key)
    && (forall k :: Live(repo, k) ==> exists i :: 0 <= i < |objects| && objects[i].key == k)
  }

  /** A registered replica that answers holds bytes under the registered checksum. */
  ghost predicate HasSource(cfg: Settings, c: Cloud, loc: ObjectLocation, up: set<Str>) {
    exists n :: n in loc.replicas && n in cfg.clients && n in up && HoldsIntact(cfg, c, n, loc)
  }

  predicate HoldsIntact(cfg: Settings, c: Cloud, n: Str, loc: ObjectLocation) {
    && (n, loc.key) in c.copies && !c.copies[(n, loc.key)].deleted && c.copies[(n, loc.key)].bytes.Some?
    && cfg.sum(c.copies[(n, loc.key)].bytes.value) == c.copies[(n, loc.key)].checksum == loc.checksum
  }

  lemma {:induction false} SourceIff(cfg: Settings, c: Cloud, replicas: seq<Str>, loc: ObjectLocation, up: set<Str>)
    ensures Source(cfg, c, replicas, loc, up).Some? <==>
            exists n :: n in replicas && n in cfg.clients && n in up && HoldsIntact(cfg, c, n, loc)
  {
    if replicas != [] {
      SourceIff(cfg, c, replicas[1..], loc, up);
      assert replicas == [replicas[0]] + replicas[1..];
    }
  }

  /** What repair does about an object, by what the nodes hold. */
  lemma JudgeIff(cfg: Settings, c: Cloud, target: Str, loc: ObjectLocation, ans: Answers)
    ensures var placed := IsPlaced(cfg, c.repo, target, loc.key, ans);
            && (Judge(cfg, c, target, loc, ans) == NotPlaced <==> !placed)
            && (Judge(cfg, c, target, loc, ans) == AlreadyCurrent <==> placed && target in loc.replicas)
            && (Judge(cfg, c, target, loc, ans) == Copied <==>
                  placed && target !in loc.replicas && HasSource(cfg, c, loc, ans.up) && loc.key in ans.stored)
            && (Judge(cfg, c, target, loc, ans) == Failed <==>
                  placed && target !in loc.replicas && !(HasSource(cfg, c, loc, ans.up) && loc.key in ans.stored))
  {
    hide SeenPlacement, HoldsIntact;
    SourceIff(cfg, c, loc.replicas, loc, ans.up);
  }

  /** How many of the objects get this verdict in the state before the repair. */
  function Tally(cfg: Settings, c: Cloud, target: Str, objects: seq<ObjectLocation>, ans: Answers, v: Verdict): nat {
    if objects == [] then 0
    else Tally(cfg, c, target, objects[..|objects| - 1], ans, v) +
         if Judge(cfg, c, target, objects[|objects| - 1], ans) == v then 1 else 0
  }

  function PlacedOn(cfg: Settings, repo: Repo, target: Str, objects: seq<ObjectLocation>, ans: Answers): nat {
    if objects == [] then 0
    else PlacedOn(cfg, repo, target, objects[..|objects| - 1], ans) +
         if IsPlaced(cfg, repo, target, objects[|objects| - 1].key, ans) then 1 else 0
  }

  // ----- the invariant -----

  /** Every registered replica of a live object committed the registered checksum for it. */
  ghost predicate Faithful(c: Cloud) {
    forall k, n :: Live(c.repo, k) && n in c.repo.objects[k].replicas ==>
                   (n, k) in c.copies && c.copies[(n, k)].checksum == c.repo.objects[k].checksum
  }

  /** A read returns only bytes under the last registered checksum, and it succeeds if any registered replica can serve. */
  lemma GetIsFaithful(cfg: Settings, c: Cloud, key: Str, up: set<Str>, finds: bool)
    requires Faithful(c)
    ensures var r := GetReply(cfg, c, key, up, finds);
            && (r.Bytes? ==> Live(c.repo, key) && cfg.sum(r.bytes) == c.repo.objects[key].checksum)
            && (r.Bytes? <==> finds && Live(c.repo, key) && exists n :: n in c.repo.objects[key].replicas && Serves(cfg, c, up, n, key))
  {
  }

  /** A put that does not register, for want of a quorum or of the metadata service, wrote over a registered replica. */
  ghost predicate Overwrites(cfg: Settings, c: Cloud, key: Str, data: Str, oks: set<Str>, svc: Service) {
    && Tried(cfg, c, key, svc) && !Registers(cfg, c, key, oks, svc)
    && Live(c.repo, key) && cfg.sum(data) != c.repo.objects[key].checksum
    && exists n :: n in Acks(cfg, c, key, oks, svc.places) && n in c.repo.objects[key].replicas
  }

  /** A put keeps the invariant exactly if it does not fail to register after writing over a registered replica. */
  lemma PutFaithfulIff(cfg: Settings, c: Cloud, key: Str, data: Str, oks: set<Str>, svc: Service)
    requires Faithful(c)
    ensures Faithful(AfterPut(cfg, c, key, data, oks, svc)) <==> !Overwrites(cfg, c, key, data, oks, svc)
  {
    hide SeenPlacement, Acked, Stored;
    var d, acked := AfterPut(cfg, c, key, data, oks, svc), Acks(cfg, c, key, oks, svc.places);
    var copy := NewCopy(cfg, c, key, data, svc);
    if Overwrites(cfg, c, key, data, oks, svc) {
      var n :| n in acked && n in c.repo.objects[key].replicas;
      StoredAt(c.copies, acked, key, copy, n, key);
      assert d.copies[(n, key)].checksum != d.repo.objects[key].checksum;
    } else {
      forall k, n | Live(d.repo, k) && n in d.repo.objects[k].replicas
        ensures (n, k) in d.copies && d.copies[(n, k)].checksum == d.repo.objects[k].checksum
      {
        StoredAt(c.copies, acked, key, copy, n, k);
      }
    }
  }

  /**
    A put that is tried but does not register is not acknowledged, whether it missed its quorum or met it
    and could not register; and yet a registered replica that it wrote over serves its data.
   */
  lemma UnacknowledgedIsServed(cfg: Settings, c: Cloud, key: Str, data: Str, oks: set<Str>, svc: Service, n: Str)
    requires Tried(cfg, c, key, svc) && !Registers(cfg, c, key, oks, svc)
    requires Live(c.repo, key) && n in Acks(cfg, c, key, oks, svc.places) && n in c.repo.objects[key].replicas
    ensures !PutOk(cfg, c, key, oks, svc) && GetReply(cfg, AfterPut(cfg, c, key, data, oks, svc), key, {n}, true) == Bytes(data)
  {
    hide SeenPlacement, Acked, Stored;
    var d, acked := AfterPut(cfg, c, key, data, oks, svc), Acks(cfg, c, key, oks, svc.places);
    StoredAt(c.copies, acked, key, NewCopy(cfg, c, key, data, svc), n, key);
    assert Serves(cfg, d, {n}, n, key);
  }

  lemma {:induction false} DroppedKeeps(copies: map<(Str, Str), Copy>, nodes: seq<Str>, key: Str)
    ensures var d := DroppedAll(copies, nodes, key);
            d.Keys == copies.Keys && forall x :: x in copies ==> d[x].checksum == copies[x].checksum && d[x].bytes == copies[x].bytes
  {
    if nodes != [] {
      DroppedKeeps(copies, nodes[..|nodes| - 1], key);
    }
  }

  lemma {:induction false} DroppedAt(copies: map<(Str, Str), Copy>, nodes: seq<Str>, key: Str, n: Str, k: Str)
    ensures var d := DroppedAll(copies, nodes, key);
            && ((n, k) in d <==> (n, k) in copies)
            && ((n, k) in copies ==> d[(n, k)] == if k == key && n in nodes then copies[(n, k)].(deleted := true) else copies[(n, k)])
  {
    if nodes != [] {
      DroppedAt(copies, nodes[..|nodes| - 1], key, n, k);
      assert nodes == nodes[..|nodes| - 1] + [nodes[|nodes| - 1]];
    }
  }

  /** After a delete, the nodes that acknowledged it answer NotFound for the key; nothing else changes on any node. */
  lemma DeletedIsGone(cfg: Settings, c: Cloud, key: Str, oks: set<Str>, svc: Service, n: Str, k: Str, up: set<Str>)
    ensures var d := AfterDelete(cfg, c, key, oks, svc);
            NodeGet(cfg, d, up, n, k) ==
              if n in up && k == key && n in Acks(cfg, c, key, oks, svc.places) then NotFound else NodeGet(cfg, c, up, n, k)
  {
    hide SeenPlacement, Acked, DroppedAll;
    DroppedAt(c.copies, Acks(cfg, c, key, oks, svc.places), key, n, k);
  }

  /** After a put that is tried, the nodes that acknowledged it serve the data; nothing else changes on any node. */
  lemma PutIsServed(cfg: Settings, c: Cloud, key: Str, data: Str, oks: set<Str>, svc: Service, n: Str, k: Str, up: set<Str>)
    requires Tried(cfg, c, key, svc)
    ensures var d := AfterPut(cfg, c, key, data, oks, svc);
            NodeGet(cfg, d, up, n, k) ==
              if n in up && k == key && n in Acks(cfg, c, key, oks, svc.places) then Bytes(data) else NodeGet(cfg, c, up, n, k)
  {
    hide SeenPlacement, Acked, Stored;
    StoredAt(c.copies, Acks(cfg, c, key, oks, svc.places), key, NewCopy(cfg, c, key, data, svc), n, k);
  }

  lemma DeleteFaithful(cfg: Settings, c: Cloud, key: Str, oks: set<Str>, svc: Service)
    requires Faithful(c)
    ensures Faithful(AfterDelete(cfg, c, key, oks, svc))
  {
    hide SeenPlacement, Acked, DroppedAll;
    DroppedKeeps(c.copies, Acks(cfg, c, key, oks, svc.places), key);
  }

  lemma RepairOneFaithful(cfg: Settings, c: Cloud, target: Str, loc: ObjectLocation, ans: Answers)
    requires Faithful(c) && Live(c.repo, loc.key) && c.repo.objects[loc.key] == loc
    ensures Faithful(AfterRepairOne(cfg, c, target, loc, ans))
  {
    hide SeenPlacement, Source, NodeGet;
  }

  // ----- a write survives the loss of fewer nodes than its quorum -----

  lemma {:induction false} AckedUnique(replicas: seq<Str>, oks: set<Str>)
    requires Unique(replicas)
    ensures Unique(Acked(replicas, oks))
  {
    if replicas != [] {
      var init, last := replicas[..|replicas| - 1], replicas[|replicas| - 1];
      AckedUnique(init, oks);
      assert last !in init;
      UniqueSnoc(Acked(init, oks), last);
    }
  }

  lemma PlacementUnique(cfg: Settings, repo: Repo, key: Str, places: bool)
    ensures Unique(SeenPlacement(cfg, repo, key, places))
  {
    FirstsDistinct(Walk(repo.ring, cfg.hash(key)));
  }

  lemma SomeoneElse(nodes: seq<Str>, bad: set<Str>) returns (n: Str)
    requires Unique(nodes) && |bad| < |nodes|
    ensures n in nodes && n !in bad
  {
    var all := Members(nodes);
    MembersSize(nodes);
    if all <= bad {
      SubsetSize(all, bad);
    }
    n :| n in all && n !in bad;
  }

  /**
    After a put that registered, whatever happens to fewer nodes than the write quorum, a read returns
    bytes under the checksum of the data that was put.
   */
  lemma PutSurvives(cfg: Settings, c: Cloud, key: Str, data: Str, oks: set<Str>, svc: Service, bad: set<Str>, d: Cloud, up: set<Str>)
    requires Registers(cfg, c, key, oks, svc) && |bad| < cfg.writeQuorum && Faithful(d)
    requires d.repo == AfterPut(cfg, c, key, data, oks, svc).repo
    requires forall n :: n in Acks(cfg, c, key, oks, svc.places) && n !in bad ==>
               n in up && (n, key) in d.copies && d.copies[(n, key)] == NewCopy(cfg, c, key, data, svc)
    ensures var r := GetReply(cfg, d, key, up, true); r.Bytes? && cfg.sum(r.bytes) == cfg.sum(data)
  {
    hide SeenPlacement, Acked, Stored, ReadFrom, Unique;
    PlacementUnique(cfg, c.repo, key, svc.places);
    AckedUnique(SeenPlacement(cfg, c.repo, key, svc.places), oks * cfg.clients);
    var n := SomeoneElse(Acks(cfg, c, key, oks, svc.places), bad);
    assert Serves(cfg, d, up, n, key);
    GetIsFaithful(cfg, d, key, up, true);
  }

  // ----- repair -----

  lemma RepairOneFrame(cfg: Settings, c: Cloud, target: Str, loc: ObjectLocation, ans: Answers)
    ensures var d := AfterRepairOne(cfg, c, target, loc, ans);
            && d.repo.ring == c.repo.ring && d.repo.members == c.repo.members
            && (forall k :: k != loc.key ==> (k in d.repo.objects <==> k in c.repo.objects) && (k in c.repo.objects ==> d.repo.objects[k] == c.repo.objects[k]))
  {
    hide SeenPlacement, Source;
  }

  /** Objects that are not reached yet are as they were listed. */
  lemma {:induction false} RepairFrame(cfg: Settings, c: Cloud, target: Str, objects: seq<ObjectLocation>, n: nat, ans: Answers)
    requires Lists(c.repo, objects) && n <= |objects|
    ensures var d := AfterRepair(cfg, c, target, objects[..n], ans);
            && d.repo.ring == c.repo.ring && d.repo.members == c.repo.members
            && forall i :: n <= i < |objects| ==> Live(d.repo, objects[i].key) && d.repo.objects[objects[i].key] == objects[i]
  {
    hide AfterRepairOne;
    if n > 0 {
      RepairFrame(cfg, c, target, objects, n - 1, ans);
      assert objects[..n][..n - 1] == objects[..n - 1];
      RepairOneFrame(cfg, AfterRepair(cfg, c, target, objects[..n - 1], ans), target, objects[n - 1], ans);
    }
  }

  /** Repair never spreads corruption: it keeps the invariant, whichever of its calls fail. */
  lemma {:induction false} RepairFaithful(cfg: Settings, c: Cloud, target: Str, objects: seq<ObjectLocation>, n: nat, ans: Answers)
    requires Faithful(c) && Lists(c.repo, objects) && n <= |objects|
    ensures Faithful(AfterRepair(cfg, c, target, objects[..n], ans))
  {
    hide AfterRepairOne, Faithful;
    if n > 0 {
      RepairFaithful(cfg, c, target, objects, n - 1, ans);
      RepairFrame(cfg, c, target, objects, n - 1, ans);
      assert objects[..n][..n - 1] == objects[..n - 1];
      RepairOneFaithful(cfg, AfterRepair(cfg, c, target, objects[..n - 1], ans), target, objects[n - 1], ans);
    }
  }

  /**
    The target of a copied object serves its bytes under the registered checksum. It is listed among the
    replicas exactly if the register succeeded, which the report does not tell.
   */
  lemma CopiedIsServed(cfg: Settings, c: Cloud, target: Str, loc: ObjectLocation, ans: Answers, up: set<Str>)
    requires Judge(cfg, c, target, loc, ans) == Copied && target in up
    requires Live(c.repo, loc.key) && c.repo.objects[loc.key] == loc
    ensures var d := AfterRepairOne(cfg, c, target, loc, ans);
            && NodeGet(cfg, d, up, target, loc.key).Bytes? && cfg.sum(NodeGet(cfg, d, up, target, loc.key).bytes) == loc.checksum
            && Live(d.repo, loc.key) && (target in d.repo.objects[loc.key].replicas <==> loc.key in ans.registered)
  {
    hide SeenPlacement, Source;
  }

  // ----- runs -----

  datatype Event =
    | Put(key: Str, data: Str, oks: set<Str>, svc: Service)
    | Delete(key: Str, oks: set<Str>, svc: Service)
    | Repair(target: Str, objects: seq<ObjectLocation>, ans: Answers)
    | Join(node: NodeInfo)
    | Corrupt(n: Str, key: Str, bytes: Option<Str>)

  /** A put that does not register did not write over a registered replica; repair sees a full listing. */
  ghost predicate Allowed(cfg: Settings, c: Cloud, e: Event) {
    && (e.Put? ==> !Overwrites(cfg, c, e.key, e.data, e.oks, e.svc))
    && (e.Repair? ==> Lists(c.repo, e.objects))
  }

  function After(cfg: Settings, p: Placement, c: Cloud, e: Event): Cloud
    requires Ordered(c.repo.ring)
  {
    match e
    case Put(key, data, oks, svc) => AfterPut(cfg, c, key, data, oks, svc)
    case Delete(key, oks, svc) => AfterDelete(cfg, c, key, oks, svc)
    case Repair(target, objects, ans) => AfterRepair(cfg, c, target, objects, ans)
    case Join(node) => c.(repo := WithNode(p, c.repo, node))
    case Corrupt(n, key, bytes) =>
      if (n, key) in c.copies then c.(copies := c.copies[(n, key) := c.copies[(n, key)].(bytes := bytes)]) else c
  }

  /** This event registers new data for the key. */
  predicate PutsData(cfg: Settings, c: Cloud, e: Event, key: Str) {
    e.Put? && e.key == key && Registers(cfg, c, key, e.oks, e.svc)
  }

  ghost predicate Good(c: Cloud) {
    Ordered(c.repo.ring) && Faithful(c)
  }

  /** A live object is registered under the same checksum as before, unless new data was registered for it. */
  ghost predicate SameSums(c: Cloud, d: Cloud, key: Str) {
    Live(d.repo, key) ==> Live(c.repo, key) && d.repo.objects[key].checksum == c.repo.objects[key].checksum
  }

  lemma {:induction false} RepairSums(cfg: Settings, c: Cloud, target: Str, objects: seq<ObjectLocation>, n: nat, ans: Answers, key: Str)
    requires Lists(c.repo, objects) && n <= |objects|
    ensures SameSums(c, AfterRepair(cfg, c, target, objects[..n], ans), key)
  {
    hide SeenPlacement, Source;
    if n > 0 {
      RepairSums(cfg, c, target, objects, n - 1, ans, key);
      RepairFrame(cfg, c, target, objects, n - 1, ans);
      assert objects[..n][..n - 1] == objects[..n - 1];
    }
  }

  lemma RepairGood(cfg: Settings, c: Cloud, target: Str, objects: seq<ObjectLocation>, ans: Answers, key: Str)
    requires Good(c) && Lists(c.repo, objects)
    ensures var d := AfterRepair(cfg, c, target, objects, ans); Good(d) && SameSums(c, d, key)
  {
    hide Faithful, AfterRepair, Lists, SameSums;
    assert objects[..|objects|] == objects;
    RepairFaithful(cfg, c, target, objects, |objects|, ans);
    RepairFrame(cfg, c, target, objects, |objects|, ans);
    RepairSums(cfg, c, target, objects, |objects|, ans, key);
  }

  lemma PutGood(cfg: Settings, c: Cloud, key: Str, data: Str, oks: set<Str>, svc: Service, k: Str)
    requires Good(c) && !Overwrites(cfg, c, key, data, oks, svc)
    ensures var d := AfterPut(cfg, c, key, data, oks, svc);
            && Good(d)
            && (if k == key && Registers(cfg, c, key, oks, svc)
                then Live(d.repo, k) && d.repo.objects[k].checksum == cfg.sum(data) else SameSums(c, d, k))
  {
    hide SeenPlacement, Acked, Stored, Faithful, Overwrites;
    PutFaithfulIff(cfg, c, key, data, oks, svc);
  }

  lemma DeleteGood(cfg: Settings, c: Cloud, key: Str, oks: set<Str>, svc: Service, k: Str)
    requires Good(c)
    ensures var d := AfterDelete(cfg, c, key, oks, svc); Good(d) && SameSums(c, d, k)
  {
    hide SeenPlacement, Acked, DroppedAll, Faithful;
    DeleteFaithful(cfg, c, key, oks, svc);
  }

  lemma StepGood(cfg: Settings, p: Placement, c: Cloud, e: Event, k: Str)
    requires Good(c) && Allowed(cfg, c, e)
    ensures var d := After(cfg, p, c, e);
            && Good(d)
            && (if PutsData(cfg, c, e, k)
                then Live(d.repo, k) && d.repo.objects[k].checksum == cfg.sum(e.data) else SameSums(c, d, k))
  {
    hide AfterPut, AfterDelete, AfterRepair, Overwrites, Lists, Placed, Registers;
    match e
    case Put(key, data, oks, svc) => PutGood(cfg, c, key, data, oks, svc, k);
    case Delete(key, oks, svc) => DeleteGood(cfg, c, key, oks, svc, k);
    case Repair(target, objects, ans) => RepairGood(cfg, c, target, objects, ans, k);
    case Join(_) =>
    case Corrupt(_, _, _) =>
  }

  ghost predicate IsRun(cfg: Settings, p: Placement, cs: seq<Cloud>, es: seq<Event>) {
    && |cs| == |es| + 1 && cs[0] == Cloud(map[], EMPTY_REPO)
    && forall i :: 0 <= i < |es| ==>
         Ordered(cs[i].repo.ring) && Allowed(cfg, cs[i], es[i]) && cs[i + 1] == After(cfg, p, cs[i], es[i])
  }

  lemma RunStep(cfg: Settings, p: Placement, cs: seq<Cloud>, es: seq<Event>, i: nat)
    requires IsRun(cfg, p, cs, es) && i < |es|
    ensures |cs| == |es| + 1 && Ordered(cs[i].repo.ring) && Allowed(cfg, cs[i], es[i]) && cs[i + 1] == After(cfg, p, cs[i], es[i])
  {
    hide Allowed, After, Ordered;
  }

  lemma RunStart(cfg: Settings, p: Placement, cs: seq<Cloud>, es: seq<Event>)
    requires IsRun(cfg, p, cs, es)
    ensures |cs| == |es| + 1 && Good(cs[0]) && forall k :: !Live(cs[0].repo, k)
  {
    hide Allowed, After;
  }

  lemma {:induction false} RunGood(cfg: Settings, p: Placement, cs: seq<Cloud>, es: seq<Event>, i: nat)
    requires IsRun(cfg, p, cs, es) && i < |cs|
    ensures Good(cs[i])
  {
    hide IsRun, Good, After, Allowed;
    RunStart(cfg, p, cs, es);
    if i > 0 {
      RunGood(cfg, p, cs, es, i - 1);
      RunStep(cfg, p, cs, es, i - 1);
      StepGood(cfg, p, cs[i - 1], es[i - 1], []);
    }
  }

  /** The event that registered the checksum of a live object; no later one registered data for it. */
  lemma {:induction false} LastRegistered(cfg: Settings, p: Placement, cs: seq<Cloud>, es: seq<Event>, i: nat, key: Str) returns (q: nat)
    requires IsRun(cfg, p, cs, es) && i < |cs| && Live(cs[i].repo, key)
    ensures |cs| == |es| + 1 && q < i && PutsData(cfg, cs[q], es[q], key) && cs[i].repo.objects[key].checksum == cfg.sum(es[q].data)
    ensures forall m :: q < m < i ==> !PutsData(cfg, cs[m], es[m], key)
  {
    hide IsRun, Good, After, Allowed, PutsData;
    RunStart(cfg, p, cs, es);
    RunStep(cfg, p, cs, es, i - 1);
    RunGood(cfg, p, cs, es, i - 1);
    StepGood(cfg, p, cs[i - 1], es[i - 1], key);
    if PutsData(cfg, cs[i - 1], es[i - 1], key) {
      q := i - 1;
      DataIsPut(cfg, cs[q], es[q], key);
    } else {
      q := LastRegistered(cfg, p, cs, es, i - 1, key);
    }
  }

  lemma DataIsPut(cfg: Settings, c: Cloud, e: Event, key: Str)
    requires PutsData(cfg, c, e, key)
    ensures e.Put?
  {
  }

  /**
    Over every run of puts, deletes, repairs, joins, outages of nodes and of the metadata service, and payload
    corruption, a successful read returns bytes whose checksum is that of the last put of the key that
    registered. That put was acknowledged, unless the reply to its register was lost.
   */
  lemma ReadsLastPut(cfg: Settings, p: Placement, cs: seq<Cloud>, es: seq<Event>, i: nat, key: Str, up: set<Str>, finds: bool) returns (q: nat)
    requires IsRun(cfg, p, cs, es) && i < |cs| && GetReply(cfg, cs[i], key, up, finds).Bytes?
    ensures |cs| == |es| + 1 && q < i && PutsData(cfg, cs[q], es[q], key)
    ensures forall m :: q < m < i ==> !PutsData(cfg, cs[m], es[m], key)
    ensures cfg.sum(GetReply(cfg, cs[i], key, up, finds).bytes) == cfg.sum(es[q].data)
    ensures PutOk(cfg, cs[q], key, es[q].oks, es[q].svc) || es[q].svc.reply == Unheard
  {
    hide IsRun, GetReply, Faithful;
    RunGood(cfg, p, cs, es, i);
    GetIsFaithful(cfg, cs[i], key, up, finds);
    q := LastRegistered(cfg, p, cs, es, i, key);
  }

  // ----- the classes -----

  lemma Nothing(copies: map<(Str, Str), Copy>, key: Str, copy: Copy, oks: set<Str>)
    ensures Acked([], oks) == [] && Stored(copies, [], key, copy) == copies
  {
  }

  lemma AckedSnoc(replicas: seq<Str>, i: nat, oks: set<Str>)
    requires i < |replicas|
    ensures replicas[..i + 1] == replicas[..i] + [replicas[i]]
    ensures Acked(replicas[..i + 1], oks) == Acked(replicas[..i], oks) + if replicas[i] in oks then [replicas[i]] else []
  {
    assert replicas[..i + 1][..i] == replicas[..i];
  }

  lemma StoredSnoc(copies: map<(Str, Str), Copy>, nodes: seq<Str>, n: Str, key: Str, copy: Copy)
    ensures Stored(copies, nodes + [n], key, copy) == Stored(copies, nodes, key, copy)[(n, key) := copy]
  {
    assert (nodes + [n])[..|nodes|] == nodes;
  }

  lemma NothingDropped(copies: map<(Str, Str), Copy>, key: Str, oks: set<Str>)
    ensures Acked([], oks) == [] && DroppedAll(copies, [], key) == copies
  {
  }

  lemma DroppedSnoc(copies: map<(Str, Str), Copy>, nodes: seq<Str>, n: Str, key: Str)
    ensures DroppedAll(copies, nodes + [n], key) == Dropped(DroppedAll(copies, nodes, key), n, key)
  {
    hide Dropped;
    assert (nodes + [n])[..|nodes|] == nodes;
  }

  /** What Put tells its caller. */
  datatype PutResult = Committed(version: nat) | QuorumMissed | NotRegistered

  datatype DeleteResult = Deleted | TooFewAcks | NoSuchObject | NotRemoved

  datatype ReplicaHealth = HealthyReplica | LaggingReplica | FailedReplica

  /** The health marks of a read: each replica that was asked, up to the one that served. */
  function Marked(cfg: Settings, c: Cloud, replicas: seq<Str>, key: Str, up: set<Str>, health: map<Str, ReplicaHealth>): map<Str, ReplicaHealth>
    decreases |replicas|
  {
    if replicas == [] then health
    else if replicas[0] !in cfg.clients then Marked(cfg, c, replicas[1..], key, up, health)
    else
      match NodeGet(cfg, c, up, replicas[0], key)
      case Bytes(_) => health[replicas[0] := HealthyReplica]
      case NotFound => Marked(cfg, c, replicas[1..], key, up, health)
      case IoError => Marked(cfg, c, replicas[1..], key, up, health)
      case Unreachable => Marked(cfg, c, replicas[1..], key, up, health[replicas[0] := FailedReplica])
      case ChecksumMismatch => Marked(cfg, c, replicas[1..], key, up, health[replicas[0] := LaggingReplica])
  }

  /** The mark that a reply earns a replica; a missing object or an unreadable file earns none. */
  function MarkFor(reply: ReadReply): Option<ReplicaHealth> {
    match reply
    case Bytes(_) => Some(HealthyReplica)
    case Unreachable => Some(FailedReplica)
    case ChecksumMismatch => Some(LaggingReplica)
    case _ => None
  }

  /** The replica was asked: no replica before its first place in the list serves the object. */
  ghost predicate Asked(cfg: Settings, c: Cloud, replicas: seq<Str>, key: Str, up: set<Str>, n: Str) {
    n in cfg.clients && exists i :: 0 <= i < |replicas| && replicas[i] == n && forall j :: 0 <= j < i ==> !Serves(cfg, c, up, replicas[j], key)
  }

  /** A read marks exactly the replicas it asked, each by its reply. */
  lemma {:induction false} MarkedMeans(cfg: Settings, c: Cloud, replicas: seq<Str>, key: Str, up: set<Str>, health: map<Str, ReplicaHealth>, n: Str)
    ensures var h, mark := Marked(cfg, c, replicas, key, up, health), MarkFor(NodeGet(cfg, c, up, n, key));
            if Asked(cfg, c, replicas, key, up, n) && mark.Some? then n in h && h[n] == mark.value
            else (n in h <==> n in health) && (n in h ==> h[n] == health[n])
  {
    hide NodeGet;
    if replicas != [] {
      var first, rest := replicas[0], replicas[1..];
      AskedFirst(cfg, c, replicas, key, up, n);
      if first !in cfg.clients {
        MarkedMeans(cfg, c, rest, key, up, health, n);
      } else {
        match NodeGet(cfg, c, up, first, key)
        case Bytes(_) =>
        case NotFound => MarkedMeans(cfg, c, rest, key, up, health, n);
        case IoError => MarkedMeans(cfg, c, rest, key, up, health, n);
        case Unreachable => MarkedMeans(cfg, c, rest, key, up, health[first := FailedReplica], n);
        case ChecksumMismatch => MarkedMeans(cfg, c, rest, key, up, health[first := LaggingReplica], n);
      }
    }
  }

  lemma AskedFirst(cfg: Settings, c: Cloud, replicas: seq<Str>, key: Str, up: set<Str>, n: Str)
    requires replicas != []
    ensures Asked(cfg, c, replicas, key, up, n) <==>
            n in cfg.clients && (n == replicas[0] || (!Serves(cfg, c, up, replicas[0], key) && Asked(cfg, c, replicas[1..], key, up, n)))
  {
    hide NodeGet, Serves;
    var rest := replicas[1..];
    if n in cfg.clients && !Serves(cfg, c, up, replicas[0], key) && Asked(cfg, c, rest, key, up, n) {
      var i :| 0 <= i < |rest| && rest[i] == n && forall j :: 0 <= j < i ==> !Serves(cfg, c, up, rest[j], key);
      assert replicas[i + 1] == n && forall j :: 0 < j < i + 1 ==> replicas[j] == rest[j - 1];
    }
    if Asked(cfg, c, replicas, key, up, n) && n != replicas[0] {
      var i :| 0 <= i < |replicas| && replicas[i] == n && forall j :: 0 <= j < i ==> !Serves(cfg, c, up, replicas[j], key);
      assert rest[i - 1] == n && forall j :: 0 <= j < i - 1 ==> rest[j] == replicas[j + 1];
    }
  }

  /** Reply and marks of a read are those of its first replica, or go on behind it. */
  lemma AskFirst(cfg: Settings, c: Cloud, replicas: seq<Str>, key: Str, up: set<Str>, last: ReadReply, health: map<Str, ReplicaHealth>)
    requires replicas != [] && !last.Bytes?
    ensures var n, rest := replicas[0], replicas[1..];
            var reply := NodeGet(cfg, c, up, n, key);
            if n !in cfg.clients then
              && ReadFrom(cfg, c, replicas, key, up, last) == ReadFrom(cfg, c, rest, key, up, last)
              && Marked(cfg, c, replicas, key, up, health) == Marked(cfg, c, rest, key, up, health)
            else
              && ReadFrom(cfg, c, replicas, key, up, last) == (if reply.Bytes? then reply else ReadFrom(cfg, c, rest, key, up, reply))
              && var h := if MarkFor(reply).Some? then health[n := MarkFor(reply).value] else health;
                 Marked(cfg, c, replicas, key, up, health) == if reply.Bytes? then h else Marked(cfg, c, rest, key, up, h)
  {
    hide NodeGet;
  }

  lemma NoneLeft(cfg: Settings, c: Cloud, replicas: seq<Str>, key: Str, up: set<Str>, last: ReadReply, health: map<Str, ReplicaHealth>)
    requires replicas == [] && !last.Bytes?
    ensures ReadFrom(cfg, c, replicas, key, up, last) == last && Marked(cfg, c, replicas, key, up, health) == health
  {
  }

  class Coordinator {
    const cfg: Settings
    var copies: map<(Str, Str), Copy>
    var repo: Repo
    var health: map<Str, ReplicaHealth>

    constructor (cfg: Settings, copies: map<(Str, Str), Copy>, repo: Repo)
      ensures this.cfg == cfg && Value() == Cloud(copies, repo)
      ensures health == map n | n in cfg.clients :: HealthyReplica
    {
      this.cfg, this.copies, this.repo := cfg, copies, repo;
      health := map n | n in cfg.clients :: HealthyReplica;
    }

    ghost function Value(): Cloud
      reads this
    {
      Cloud(copies, repo)
    }

    method MarkHealth(n: Str, h: ReplicaHealth)
      modifies this`health
      ensures health == old(health)[n := h]
    {
      health := health[n := h];
    }

    method Put(key: Str, data: Str, oks: set<Str>, svc: Service) returns (r: PutResult)
      modifies this
      ensures Value() == AfterPut(cfg, old(Value()), key, data, oks, svc)
      ensures r.Committed? <==> PutOk(cfg, old(Value()), key, oks, svc)
      ensures r.Committed? ==> r.version == if svc.finds && Live(old(repo), key) then old(repo).objects[key].version + 1 else 1
      ensures r.Committed? ==>
                Find(repo, key) == Some(ObjectLocation(key, r.version, cfg.sum(data), |data|, false, Acks(cfg, old(Value()), key, oks, svc.places)))
      ensures r.NotRegistered? <==> svc.reply != Heard && Registers(cfg, old(Value()), key, oks, svc.(reply := Heard))
      ensures Tried(cfg, old(Value()), key, svc) ==>
                forall n :: n in SeenPlacement(cfg, old(repo), key, svc.places) ==>
                  n in health && health[n] == if n in Acks(cfg, old(Value()), key, oks, svc.places) then HealthyReplica else LaggingReplica
    {
      hide PlacementFor, Acked, Stored;
      var replicas := SeenPlacement(cfg, repo, key, svc.places);
      if |replicas| < cfg.writeQuorum {
        return QuorumMissed;
      }
      var version := 1;
      if svc.finds && Live(repo, key) {
        version := repo.objects[key].version + 1;
      }
      var acked := FanOut(replicas, key, Copy(Some(data), cfg.sum(data), version, false), oks);
      if |acked| < cfg.writeQuorum {
        return QuorumMissed;
      }
      if svc.reply != Refused {
        repo := WithObject(repo, ObjectLocation(key, version, cfg.sum(data), |data|, false, acked));
      }
      r := if svc.reply == Heard then Committed(version) else NotRegistered;
    }

    /** Sends the copy to each replica and collects the acknowledgements in placement order. */
    method FanOut(replicas: seq<Str>, key: Str, copy: Copy, oks: set<Str>) returns (acked: seq<Str>)
      modifies this`copies, this`health
      ensures acked == Acked(replicas, oks * cfg.clients) && copies == Stored(old(copies), acked, key, copy)
      ensures forall n :: n in replicas ==> n in health && health[n] == if n in acked then HealthyReplica else LaggingReplica
    {
      hide Acked, Stored;
      acked := [];
      Nothing(copies, key, copy, oks * cfg.clients);
      var i := 0;
      while i < |replicas|
        invariant 0 <= i <= |replicas| && acked == Acked(replicas[..i], oks * cfg.clients)
        invariant copies == Stored(old(copies), acked, key, copy)
        invariant forall n :: n in replicas[..i] ==> n in health && health[n] == if n in oks * cfg.clients then HealthyReplica else LaggingReplica
      {
        var n := replicas[i];
        var ok := n in cfg.clients && n in oks;
        AckedSnoc(replicas, i, oks * cfg.clients);
        if ok {
          StoredSnoc(old(copies), acked, n, key, copy);
          copies := copies[(n, key) := copy];
          acked := acked + [n];
        }
        MarkHealth(n, if ok then HealthyReplica else LaggingReplica);
        i := i + 1;
      }
      assert replicas[..i] == replicas;
    }

    method Get(key: Str, up: set<Str>, finds: bool) returns (r: ReadReply)
      modifies this`health
      ensures r == GetReply(cfg, Value(), key, up, finds)
      ensures health == if finds && Live(repo, key) then Marked(cfg, Value(), repo.objects[key].replicas, key, up, old(health)) else old(health)
    {
      hide NodeGet, ReadFrom, Marked, Serves;
      if !finds {
        return Unreachable;
      }
      if !Live(repo, key) {
        return NotFound;
      }
      var replicas := repo.objects[key].replicas;
      if replicas == [] {
        NoneLeft(cfg, Value(), replicas, key, up, NotFound, health);
        return Unreachable;
      }
      r := NotFound;
      var i := 0;
      assert replicas[0..] == replicas;
      while i < |replicas|
        invariant 0 <= i <= |replicas| && !r.Bytes?
        invariant ReadFrom(cfg, Value(), replicas[i..], key, up, r) == ReadFrom(cfg, Value(), replicas, key, up, NotFound)
        invariant Marked(cfg, Value(), replicas[i..], key, up, health) == Marked(cfg, Value(), replicas, key, up, old(health))
      {
        var n := replicas[i];
        assert replicas[i..][0] == n && replicas[i..][1..] == replicas[i + 1..];
        AskFirst(cfg, Value(), replicas[i..], key, up, r, health);
        if n in cfg.clients {
          r := NodeGet(cfg, Cloud(copies, repo), up, n, key);
          match r {
            case Bytes(_) =>
              MarkHealth(n, HealthyReplica);
              return;
            case Unreachable => MarkHealth(n, FailedReplica);
            case ChecksumMismatch => MarkHealth(n, LaggingReplica);
            case NotFound =>
            case IoError =>
          }
        }
        i := i + 1;
      }
      NoneLeft(cfg, Value(), replicas[i..], key, up, r, health);
    }

    method Delete(key: Str, oks: set<Str>, svc: Service) returns (r: DeleteResult)
      modifies this
      ensures Value() == AfterDelete(cfg, old(Value()), key, oks, svc)
      ensures r == if |Acks(cfg, old(Value()), key, oks, svc.places)| < cfg.writeQuorum then TooFewAcks
                   else if svc.reply != Heard then NotRemoved
                   else if Live(old(repo), key) then Deleted else NoSuchObject
      ensures r == Deleted || r == NoSuchObject ==> !Live(repo, key)
      ensures forall n :: n in SeenPlacement(cfg, old(repo), key, svc.places) && n in cfg.clients ==>
                n in health && health[n] == if n in oks then HealthyReplica else FailedReplica
    {
      hide PlacementFor, Acked, DroppedAll, Dropped;
      var replicas := SeenPlacement(cfg, repo, key, svc.places);
      var acks := 0;
      ghost var acked := [];
      NothingDropped(copies, key, oks * cfg.clients);
      var i := 0;
      while i < |replicas|
        invariant 0 <= i <= |replicas| && acked == Acked(replicas[..i], oks * cfg.clients) && acks == |acked|
        invariant copies == DroppedAll(old(copies), acked, key) && repo == old(repo)
        invariant forall n :: n in replicas[..i] && n in cfg.clients ==> n in health && health[n] == if n in oks then HealthyReplica else FailedReplica
      {
        var n := replicas[i];
        AckedSnoc(replicas, i, oks * cfg.clients);
        if n in cfg.clients {
          if n in oks {
            DroppedSnoc(old(copies), acked, n, key);
            copies := Dropped(copies, n, key);
            acked := acked + [n];
            acks := acks + 1;
            MarkHealth(n, HealthyReplica);
          } else {
            MarkHealth(n, FailedReplica);
          }
        }
        i := i + 1;
      }
      assert replicas[..i] == replicas;
      if acks < cfg.writeQuorum {
        return TooFewAcks;
      }
      r := if svc.reply != Heard then NotRemoved else if Live(repo, key) then Deleted else NoSuchObject;
      if svc.reply != Refused {
        repo := WithoutObject(repo, key);
      }
    }
  }

  lemma {:induction false} RepairLeaves(cfg: Settings, c: Cloud, target: Str, objects: seq<ObjectLocation>, ans: Answers, n: Str, k: Str)
    requires forall i :: 0 <= i < |objects| ==> objects[i].key != k
    ensures var d := AfterRepair(cfg, c, target, objects, ans);
            && ((n, k) in d.copies <==> (n, k) in c.copies)
            && ((n, k) in c.copies ==> d.copies[(n, k)] == c.copies[(n, k)])
  {
    hide Judge, Source;
    if objects != [] {
      RepairLeaves(cfg, c, target, objects[..|objects| - 1], ans, n, k);
    }
  }

  lemma {:induction false} SourceSame(cfg: Settings, c: Cloud, d: Cloud, replicas: seq<Str>, loc: ObjectLocation, up: set<Str>)
    requires forall n :: ((n, loc.key) in d.copies <==> (n, loc.key) in c.copies)
    requires forall n :: (n, loc.key) in c.copies ==> d.copies[(n, loc.key)] == c.copies[(n, loc.key)]
    ensures Source(cfg, d, replicas, loc, up) == Source(cfg, c, replicas, loc, up)
  {
    if replicas != [] {
      SourceSame(cfg, c, d, replicas[1..], loc, up);
    }
  }

  /** Repairing the objects before it does not change the verdict on an object. */
  lemma JudgedAsBefore(cfg: Settings, c: Cloud, target: Str, objects: seq<ObjectLocation>, i: nat, ans: Answers)
    requires Lists(c.repo, objects) && i < |objects|
    ensures Judge(cfg, AfterRepair(cfg, c, target, objects[..i], ans), target, objects[i], ans) == Judge(cfg, c, target, objects[i], ans)
  {
    hide Source, AfterRepair, PlacementFor;
    var d, loc := AfterRepair(cfg, c, target, objects[..i], ans), objects[i];
    RepairFrame(cfg, c, target, objects, i, ans);
    SamePlacement(cfg, c.repo, d.repo, loc.key, loc.key in ans.placed);
    forall n
      ensures ((n, loc.key) in d.copies <==> (n, loc.key) in c.copies)
      ensures (n, loc.key) in c.copies ==> d.copies[(n, loc.key)] == c.copies[(n, loc.key)]
    {
      RepairLeaves(cfg, c, target, objects[..i], ans, n, loc.key);
    }
    SourceSame(cfg, c, d, loc.replicas, loc, ans.up);
  }

  datatype Report = Report(copied: nat, alreadyCurrent: nat, failed: nat)

  datatype RepairResult = Repaired(report: Report) | UnknownTarget | ListingFailed

  class Repairer {
    const plane: Coordinator

    constructor (plane: Coordinator)
      ensures this.plane == plane
    {
      this.plane := plane;
    }

    /** `listing` is what ListObjects answers, None if it fails. Every object placed on the target is counted once. */
    method RepairNode(target: Str, listing: Option<seq<ObjectLocation>>, ans: Answers) returns (r: RepairResult)
      requires listing.Some? ==> Lists(plane.repo, listing.value)
      modifies plane
      ensures r == UnknownTarget <==> target !in plane.cfg.clients
      ensures r == ListingFailed <==> target in plane.cfg.clients && listing.None?
      ensures !r.Repaired? ==> plane.Value() == old(plane.Value())
      ensures r.Repaired? ==> plane.Value() == AfterRepair(plane.cfg, old(plane.Value()), target, listing.value, ans)
      ensures r.Repaired? ==>
                && r.report.copied == Tally(plane.cfg, old(plane.Value()), target, listing.value, ans, Copied)
                && r.report.alreadyCurrent == Tally(plane.cfg, old(plane.Value()), target, listing.value, ans, AlreadyCurrent)
                && r.report.failed == Tally(plane.cfg, old(plane.Value()), target, listing.value, ans, Failed)
      ensures r.Repaired? ==> r.report.copied + r.report.alreadyCurrent + r.report.failed ==
                              PlacedOn(plane.cfg, old(plane.repo), target, listing.value, ans)
    {
      hide SeenPlacement, Lists, AfterRepairOne, Judge;
      if target !in plane.cfg.clients {
        return UnknownTarget;
      }
      if listing.None? {
        return ListingFailed;
      }
      var objects := listing.value;
      ghost var c := plane.Value();
      var report := Report(0, 0, 0);
      var i := 0;
      while i < |objects|
        invariant 0 <= i <= |objects| && Lists(c.repo, objects)
        invariant plane.Value() == AfterRepair(plane.cfg, c, target, objects[..i], ans)
        invariant report.copied + report.alreadyCurrent + report.failed == PlacedOn(plane.cfg, c.repo, target, objects[..i], ans)
        invariant report.copied == Tally(plane.cfg, c, target, objects[..i], ans, Copied)
        invariant report.alreadyCurrent == Tally(plane.cfg, c, target, objects[..i], ans, AlreadyCurrent)
        invariant report.failed == Tally(plane.cfg, c, target, objects[..i], ans, Failed)
      {
        JudgedAsBefore(plane.cfg, c, target, objects, i, ans);
        RepairFrame(plane.cfg, c, target, objects, i, ans);
        assert objects[..i + 1][..i] == objects[..i];
        SamePlacement(plane.cfg, c.repo, plane.repo, objects[i].key, objects[i].key in ans.placed);
        var verdict := RepairObject(target, objects[i], ans);
        match verdict {
          case NotPlaced =>
          case AlreadyCurrent => report := report.(alreadyCurrent := report.alreadyCurrent + 1);
          case Copied => report := report.(copied := report.copied + 1);
          case Failed => report := report.(failed := report.failed + 1);
        }
        i := i + 1;
      }
      assert objects[..i] == objects;
      r := Repaired(report);
    }

    /** The body of that loop. */
    method RepairObject(target: Str, loc: ObjectLocation, ans: Answers) returns (v: Verdict)
      modifies plane
      ensures v == Judge(plane.cfg, old(plane.Value()), target, loc, ans)
      ensures v == NotPlaced <==> !IsPlaced(plane.cfg, old(plane.repo), target, loc.key, ans)
      ensures plane.Value() == AfterRepairOne(plane.cfg, old(plane.Value()), target, loc, ans)
    {
      hide PlacementFor, NodeGet;
      var placement := SeenPlacement(plane.cfg, plane.repo, loc.key, loc.key in ans.placed);
      if target !in placement {
        return NotPlaced;
      }
      if target in loc.replicas {
        return AlreadyCurrent;
      }
      ghost var c := plane.Value();
      var i := 0;
      while i < |loc.replicas|
        invariant 0 <= i <= |loc.replicas| && plane.Value() == c
        invariant Source(plane.cfg, c, loc.replicas[i..], loc, ans.up) == Source(plane.cfg, c, loc.replicas, loc, ans.up)
      {
        var n := loc.replicas[i];
        assert loc.replicas[i..][0] == n && loc.replicas[i..][1..] == loc.replicas[i + 1..];
        if n in plane.cfg.clients {
          var data := NodeGet(plane.cfg, Cloud(plane.copies, plane.repo), ans.up, n, loc.key);
          if data.Bytes? && plane.cfg.sum(data.bytes) == loc.checksum {
            if loc.key in ans.stored {
              plane.copies := plane.copies[(target, loc.key) := Copy(Some(data.bytes), plane.cfg.sum(data.bytes), loc.version, false)];
              if loc.key in ans.registered {
                plane.repo := WithObject(plane.repo, loc.(replicas := loc.replicas + [target]));
              }
              return Copied;
            }
            return Failed;
          }
        }
        i := i + 1;
      }
      v := Failed;
    }
  }

  lemma SamePlacement(cfg: Settings, a: Repo, b: Repo, key: Str, places: bool)
    requires a.ring == b.ring && a.members == b.members
    ensures SeenPlacement(cfg, a, key, places) == SeenPlacement(cfg, b, key, places)
  {
  }
}
