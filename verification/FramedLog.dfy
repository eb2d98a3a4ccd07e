/**
  Append-only files of frames [u32 length][body][u32 crc], as the Raft log and the write-ahead log
  both use them. A reader stops at the first frame that is cut short or fails its checksum.
 */
module FramedLog {
  import opened ByteStrings
  import opened Crc
  import opened Wire

  function Frame(body: Str): Str {
    BE(|body| % U32, 4) + body + BE(Crc32(body), 4)
  }

  function Frames(bodies: seq<Str>): Str {
    if bodies == [] then [] else Frame(bodies[0]) + Frames(bodies[1..])
  }

  /** The bodies that a frame can hold: neither empty nor too long for the length field. */
  predicate Framable(bodies: seq<Str>) {
    forall k :: 0 <= k < |bodies| ==> 0 < |bodies[k]| < U32
  }

  /** The body of an intact first frame. */
  function FirstBody(all: Str): (r: Option<Str>)
    ensures r.Some? ==> 0 < |r.value| && 4 + |r.value| + 4 <= |all|
  {
    if 4 > |all| then None
    else
      var len := FromBE(all[..4]);
      if len == 0 || 4 + len + 4 > |all| then None
      else if Crc32(all[4..4 + len]) != FromBE(all[4 + len..4 + len + 4]) then None
      else Some(all[4..4 + len])
  }

  function ReadFrames(all: Str): seq<Str>
    decreases |all|
  {
    match FirstBody(all)
    case None => []
    case Some(body) => [body] + ReadFrames(all[4 + |body| + 4..])
  }

  method ComputeFrame(body: Str) returns (frame: Str)
    ensures frame == Frame(body)
  {
    hide BE, Crc32;
    frame := PutInt([], |body| % U32, 4);
    frame := frame + body;
    var crc := ComputeCrc32(body);
    frame := PutInt(frame, crc, 4);
  }

  /** The big-endian integer of four bytes, byte by byte. */
  method FourBytes(all: Str, pos: nat) returns (v: nat)
    requires pos + 4 <= |all|
    ensures v == FromBE(all[pos..pos + 4])
  {
    v := 0;
    for i := 0 to 4
      invariant v == FromBE(all[pos..pos + i])
    {
      v := v * 256 + all[pos + i];
      assert all[pos..pos + i + 1][..i] == all[pos..pos + i];
    }
  }

  /** The loop of the source over positions. */
  method ReadFramedRecords(all: Str) returns (out: seq<Str>)
    ensures out == ReadFrames(all)
  {
    hide FromBE, Crc32;
    out := [];
    var pos := 0;
    while pos + 4 <= |all|
      invariant pos <= |all| && out + ReadFrames(all[pos..]) == ReadFrames(all)
      decreases |all| - pos
    {
      var len := FourBytes(all, pos);
      var end := pos + 4 + len + 4;
      ghost var rest := all[pos..];
      assert rest[..4] == all[pos..pos + 4];
      if len == 0 || end > |all| {
        return;
      }
      var body := all[pos + 4..pos + 4 + len];
      var stored := FourBytes(all, pos + 4 + len);
      var crc := ComputeCrc32(body);
      assert rest[4..4 + len] == body && rest[4 + len..4 + len + 4] == all[pos + 4 + len..pos + 4 + len + 4];
      if crc != stored {
        return;
      }
      assert rest[4 + len + 4..] == all[end..];
      out := out + [body];
      pos := end;
    }
  }

  // ----- a file cut anywhere -----

  lemma FrameSize(body: Str)
    ensures |Frame(body)| == |body| + 8
  {
    hide BE, Crc32;
  }

  /** A frame is the length, the body and its checksum, the numbers big-endian. */
  lemma FrameLayout(body: Str)
    requires |body| < U32
    ensures var f := Frame(body);
            && |f| == |body| + 8 && FromBE(f[..4]) == |body|
            && f[4..4 + |body|] == body && FromBE(f[4 + |body|..]) == Crc32(body)
  {
    hide BE, FromBE, Crc32;
    U32RoundTrip(|body|);
    U32RoundTrip(Crc32(body));
    var f := Frame(body);
    assert f[..4] == BE(|body|, 4) && f[4..4 + |body|] == body && f[4 + |body|..] == BE(Crc32(body), 4);
  }

  lemma FirstFrameReads(body: Str, rest: Str)
    requires 0 < |body| < U32
    ensures FirstBody(Frame(body) + rest) == Some(body)
    ensures (Frame(body) + rest)[4 + |body| + 4..] == rest
  {
    hide FromBE, BE, Crc32;
    var all := Frame(body) + rest;
    assert all[..4] == BE(|body|, 4) && all[4..4 + |body|] == body;
    assert all[4 + |body|..4 + |body| + 4] == BE(Crc32(body), 4);
    U32RoundTrip(|body|);
    U32RoundTrip(Crc32(body));
  }

  /** A frame cut short reads as the end of the file. */
  lemma TornFrameEnds(body: Str, k: nat)
    requires 0 < |body| < U32 && k < |Frame(body)|
    ensures FirstBody(Frame(body)[..k]) == None
  {
    hide FromBE, BE, Crc32;
    if k >= 4 {
      assert Frame(body)[..k][..4] == BE(|body|, 4);
      U32RoundTrip(|body|);
    }
  }

  /** How many frames lie wholly within the first k bytes. */
  function Whole(bodies: seq<Str>, k: nat): (m: nat)
    ensures m <= |bodies|
  {
    if bodies == [] || |bodies[0]| + 8 > k then 0 else 1 + Whole(bodies[1..], k - (|bodies[0]| + 8))
  }

  /** It is the only count whose frames fit while the next does not. */
  lemma {:induction false} WholeIsMaximal(bodies: seq<Str>, k: nat, m: nat)
    requires m <= |bodies|
    ensures (|Frames(bodies[..m])| <= k && (m == |bodies| || |Frames(bodies[..m + 1])| > k)) <==> m == Whole(bodies, k)
  {
    hide Frame;
    if bodies != [] {
      FrameSize(bodies[0]);
      var n := |bodies[0]| + 8;
      assert m > 0 ==> bodies[..m][1..] == bodies[1..][..m - 1] && bodies[..m][0] == bodies[0];
      assert m < |bodies| ==> bodies[..m + 1][1..] == bodies[1..][..m] && bodies[..m + 1][0] == bodies[0];
      if m > 0 && n <= k {
        WholeIsMaximal(bodies[1..], k - n, m - 1);
      }
    }
  }

  /**
    Reading the first k bytes of a file returns exactly the records whose frames lie wholly within
    them: a tail torn at any byte costs the torn record and nothing else.
   */
  lemma {:induction false} PrefixReads(bodies: seq<Str>, k: nat)
    requires Framable(bodies) && k <= |Frames(bodies)|
    ensures ReadFrames(Frames(bodies)[..k]) == bodies[..Whole(bodies, k)]
  {
    hide Frame, FirstBody;
    if bodies != [] {
      var body, rest := bodies[0], Frames(bodies[1..]);
      FrameSize(body);
      var n := |body| + 8;
      if k < n {
        TornFrameEnds(body, k);
        assert Frames(bodies)[..k] == Frame(body)[..k];
      } else {
        PrefixReads(bodies[1..], k - n);
        assert Frames(bodies)[..k] == Frame(body) + rest[..k - n];
        FirstFrameReads(body, rest[..k - n]);
      }
    } else {
      assert Frames(bodies)[..k] == [];
      NothingReads();
    }
  }

  lemma NothingReads()
    ensures FirstBody([]) == None
  {
  }

  lemma WholeAll(bodies: seq<Str>)
    ensures Whole(bodies, |Frames(bodies)|) == |bodies|
  {
    WholeIsMaximal(bodies, |Frames(bodies)|, |bodies|);
    assert bodies[..|bodies|] == bodies;
  }

  /** Reading undoes writing. */
  lemma FramesReadBack(bodies: seq<Str>)
    requires Framable(bodies)
    ensures ReadFrames(Frames(bodies)) == bodies
  {
    hide ReadFrames, Frames;
    PrefixReads(bodies, |Frames(bodies)|);
    WholeAll(bodies);
    assert Frames(bodies)[..|Frames(bodies)|] == Frames(bodies);
    assert bodies[..|bodies|] == bodies;
  }

  lemma OneFrame(body: Str)
    ensures Frames([body]) == Frame(body)
  {
    hide Frame;
    assert [body][1..] == [];
    assert Frames([]) == [];
  }

  lemma {:induction false} FramesConcat(a: seq<Str>, b: seq<Str>)
    ensures Frames(a + b) == Frames(a) + Frames(b)
  {
    hide Frame;
    if a == [] {
      assert a + b == b;
    } else {
      FramesConcat(a[1..], b);
      assert (a + b)[0] == a[0] && (a + b)[1..] == a[1..] + b;
      assert Frames(a + b) == Frame(a[0]) + (Frames(a[1..]) + Frames(b));
    }
  }

  /** An intact prefix is read first, whatever follows it. */
  lemma {:induction false} ReadsPastPrefix(bodies: seq<Str>, rest: Str)
    requires Framable(bodies)
    ensures ReadFrames(Frames(bodies) + rest) == bodies + ReadFrames(rest)
  {
    hide Frame, FirstBody;
    if bodies == [] {
      assert Frames(bodies) + rest == rest;
    } else {
      ReadsPastPrefix(bodies[1..], rest);
      assert Frames(bodies) + rest == Frame(bodies[0]) + (Frames(bodies[1..]) + rest);
      FirstFrameReads(bodies[0], Frames(bodies[1..]) + rest);
    }
  }

  /** A frame whose body was replaced by another one of the same length. */
  function Damaged(body: Str, bad: Str): Str {
    BE(|body| % U32, 4) + bad + BE(Crc32(body), 4)
  }

  lemma DamagedFrameEnds(body: Str, bad: Str, k: nat, rest: Str)
    requires 0 < |body| < U32 && Burst(bad, body, k)
    ensures FirstBody(Damaged(body, bad) + rest) == None
  {
    hide FromBE, BE, Crc32;
    var all := Damaged(body, bad) + rest;
    assert all[..4] == BE(|body|, 4) && all[4..4 + |body|] == bad;
    assert all[4 + |body|..4 + |body| + 4] == BE(Crc32(body), 4);
    U32RoundTrip(|body|);
    U32RoundTrip(Crc32(body));
    ChangedBurstDetected(bad, body, k);
  }

  /** Damage to four adjacent bytes of a body, or fewer, costs that record and what follows it, and nothing before it. */
  lemma {:induction false} DamageStopsReading(bodies: seq<Str>, body: Str, bad: Str, k: nat, rest: Str)
    requires Framable(bodies) && 0 < |body| < U32 && Burst(bad, body, k)
    ensures ReadFrames(Frames(bodies) + Damaged(body, bad) + rest) == bodies
  {
    hide Frame, FirstBody, Damaged;
    if bodies == [] {
      DamagedFrameEnds(body, bad, k, rest);
      assert Frames(bodies) + Damaged(body, bad) + rest == Damaged(body, bad) + rest;
    } else {
      DamageStopsReading(bodies[1..], body, bad, k, rest);
      var tail := Frames(bodies[1..]) + Damaged(body, bad) + rest;
      assert Frames(bodies) + Damaged(body, bad) + rest == Frame(bodies[0]) + tail;
      FirstFrameReads(bodies[0], tail);
    }
  }
}
