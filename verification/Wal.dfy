/** The write-ahead log of the object store: intent and completion records in a framed file. */
module Wal {
  import opened ByteStrings
  import opened Crc
  import opened Wire
  import opened FramedLog

  const PUT: byte := 1
  const DELETE: byte := 2

  /** A mutation is logged as BEGIN before any visible change, and as COMMIT once its row is written. */
  datatype WalRecord =
    | Begin(sn: nat, op: byte, key: Str, version: nat, checksum: Str, size: nat)
    | Commit(sn: nat)

  // ----- records -----

  function EncodeBody(r: WalRecord): Str {
    match r
    case Begin(sn, op, key, version, checksum, size) =>
      BE(0, 1) + (BE(sn, 8) + (BE(op, 1) + (BE(version, 8) + (BE(size, 8) + (EncodeStr(key) + EncodeStr(checksum))))))
    case Commit(sn) => BE(1, 1) + BE(sn, 8)
  }

  /** Any non-zero first byte means COMMIT; bytes behind the last field are not looked at. */
  function DecodeBody(b: Str): Option<WalRecord> {
    match ReadInt(b, 0, 1)
    case None => None
    case Some((isCommit, p0)) =>
      match ReadInt(b, p0, 8)
      case None => None
      case Some((sn, p1)) => if isCommit != 0 then Some(Commit(sn)) else DecodeBegin(b, sn, p1)
  }

  function DecodeBegin(b: Str, sn: nat, p1: nat): Option<WalRecord> {
    match ReadByte(b, p1)
    case None => None
    case Some((op, p2)) =>
      match ReadInt(b, p2, 8)
      case None => None
      case Some((version, p3)) =>
        match ReadInt(b, p3, 8)
        case None => None
        case Some((size, p4)) =>
          match ReadStr(b, p4)
          case None => None
          case Some((key, p5)) =>
            match ReadStr(b, p5)
            case None => None
            case Some((checksum, _)) => Some(Begin(sn, op, key, version, checksum, size))
  }

  function ReadByte(b: Str, pos: nat): (r: Option<(byte, nat)>)
    ensures r.Some? <==> ReadInt(b, pos, 1).Some?
    ensures r.Some? ==> r.value == ReadInt(b, pos, 1).value
  {
    if pos + 1 > |b| then None
    else
      assert b[pos..pos + 1] == [b[pos]] && FromBE([b[pos]]) == FromBE([]) * 256 + b[pos];
      Some((b[pos], pos + 1))
  }

  predicate RecordFits(r: WalRecord) {
    r.sn < U64 && (r.Begin? ==> r.version < U64 && r.size < U64 && |r.key| + |r.checksum| < U32 - 34)
  }

  predicate WalFits(records: seq<WalRecord>) {
    forall k :: 0 <= k < |records| ==> RecordFits(records[k])
  }

  lemma CommitRoundTrip(sn: nat)
    requires sn < U64
    ensures DecodeBody(EncodeBody(Commit(sn))) == Some(Commit(sn)) && |EncodeBody(Commit(sn))| == 9
  {
    hide BE, FromBE, ReadInt;
    Widths();
    OneByte();
    IntReadsBack([], 1, 1, BE(sn, 8));
    IntReadsBack(BE(1, 1), sn, 8, []);
    var b := EncodeBody(Commit(sn));
    assert b == [] + BE(1, 1) + BE(sn, 8) == BE(1, 1) + BE(sn, 8) + [];
  }

  /** Where the fields of a record are in its body, big-endian. */
  lemma BodyLayout(r: WalRecord)
    requires RecordFits(r)
    ensures var b := EncodeBody(r);
            && |b| >= 9 && b[0] == (if r.Commit? then 1 else 0) && FromBE(b[1..9]) == r.sn
            && if r.Commit? then |b| == 9
               else
                 var k := |r.key|;
                 && |b| == 34 + k + |r.checksum|
                 && b[9] == r.op && FromBE(b[10..18]) == r.version && FromBE(b[18..26]) == r.size
                 && FromBE(b[26..30]) == k && b[30..30 + k] == r.key
                 && FromBE(b[30 + k..34 + k]) == |r.checksum| && b[34 + k..] == r.checksum
  {
    hide BE, FromBE, EncodeStr;
    U64RoundTrip(r.sn);
    SingleByte(if r.Commit? then 1 else 0);
    var b := EncodeBody(r);
    match r
    case Commit(sn) =>
      FieldAt(b, 0, BE(1, 1), BE(sn, 8));
      assert b[1..9] == b[1..];
    case Begin(sn, op, key, version, checksum, size) =>
      var t4 := EncodeStr(key) + EncodeStr(checksum);
      var t3 := BE(size, 8) + t4;
      var t2 := BE(version, 8) + t3;
      var t1 := BE(op, 1) + t2;
      FieldAt(b, 0, BE(0, 1), BE(sn, 8) + t1);
      FieldAt(b, 1, BE(sn, 8), t1);
      FieldAt(b, 9, BE(op, 1), t2);
      FieldAt(b, 10, BE(version, 8), t3);
      FieldAt(b, 18, BE(size, 8), t4);
      StringFields(b, key, checksum);
      SingleByte(op);
      U64RoundTrip(version);
      U64RoundTrip(size);
      assert b[9..10] == [b[9]];
  }

  lemma FieldAt(b: Str, i: nat, field: Str, rest: Str)
    requires i <= |b| && b[i..] == field + rest
    ensures i + |field| <= |b| && b[i..i + |field|] == field && b[i + |field|..] == rest
  {
    assert b[i..i + |field|] == b[i..][..|field|];
    assert b[i + |field|..] == b[i..][|field|..];
  }

  lemma StringFields(b: Str, key: Str, checksum: Str)
    requires |b| >= 26 && b[26..] == EncodeStr(key) + EncodeStr(checksum) && |key| + |checksum| < U32 - 34
    ensures var k := |key|;
            && |b| == 34 + k + |checksum| && FromBE(b[26..30]) == k && b[30..30 + k] == key
            && FromBE(b[30 + k..34 + k]) == |checksum| && b[34 + k..] == checksum
  {
    hide BE, FromBE;
    var k, c := |key|, |checksum|;
    U32RoundTrip(k);
    U32RoundTrip(c);
    assert b[26..] == BE(k, 4) + (key + (BE(c, 4) + checksum));
    FieldAt(b, 26, BE(k, 4), key + (BE(c, 4) + checksum));
    FieldAt(b, 30, key, BE(c, 4) + checksum);
    FieldAt(b, 30 + k, BE(c, 4), checksum);
  }

  lemma SingleByte(v: nat)
    requires v < 256
    ensures BE(v, 1) == [v]
  {
    assert Pow256(0) == 1;
  }

  lemma OneByte()
    ensures Pow256(1) == 256
  {
    assert Pow256(0) == 1;
  }

  /** The first three fields. */
  lemma BeginHead(sn: nat, op: byte, tail: Str)
    requires sn < U64
    ensures var b := BE(0, 1) + (BE(sn, 8) + (BE(op, 1) + tail));
            ReadInt(b, 0, 1) == Some((0, 1)) && ReadInt(b, 1, 8) == Some((sn, 9)) && ReadInt(b, 9, 1) == Some((op as nat, 10))
  {
    hide BE, FromBE, Pow256, ReadInt;
    Widths();
    OneByte();
    var f1, f2, f3 := BE(0, 1), BE(sn, 8), BE(op, 1);
    var b := f1 + (f2 + (f3 + tail));
    IntReadsBack([], 0, 1, f2 + (f3 + tail));
    assert b == [] + f1 + (f2 + (f3 + tail));
    IntReadsBack(f1, sn, 8, f3 + tail);
    assert b == f1 + f2 + (f3 + tail);
    IntReadsBack(f1 + f2, op, 1, tail);
    assert b == (f1 + f2) + f3 + tail;
  }

  lemma BeginRoundTrip(r: WalRecord)
    requires r.Begin? && RecordFits(r)
    ensures DecodeBody(EncodeBody(r)) == Some(r) && 0 < |EncodeBody(r)| < U32
  {
    hide BE, FromBE, Pow256, EncodeStr, ReadInt, ReadStr, ReadByte;
    StrSize(r.key);
    StrSize(r.checksum);
    var head, tail := BE(0, 1) + BE(r.sn, 8) + BE(r.op, 1), BE(r.version, 8) + (BE(r.size, 8) + (EncodeStr(r.key) + EncodeStr(r.checksum)));
    BeginHead(r.sn, r.op, tail);
    BeginTail(r, head);
    assert EncodeBody(r) == head + tail;
  }

  /** The fields behind the op byte. */
  lemma BeginTail(r: WalRecord, pre: Str)
    requires r.Begin? && RecordFits(r)
    ensures var b := pre + (BE(r.version, 8) + (BE(r.size, 8) + (EncodeStr(r.key) + EncodeStr(r.checksum))));
            && ReadInt(b, |pre|, 8) == Some((r.version, |pre| + 8))
            && ReadInt(b, |pre| + 8, 8) == Some((r.size, |pre| + 16))
            && ReadStr(b, |pre| + 16) == Some((r.key, |pre| + 20 + |r.key|))
            && ReadStr(b, |pre| + 20 + |r.key|) == Some((r.checksum, |pre| + 24 + |r.key| + |r.checksum|))
  {
    hide BE, FromBE, Pow256, EncodeStr, ReadInt, ReadStr;
    Widths();
    StrSize(r.key);
    StrSize(r.checksum);
    var f4, f5, f6, f7 := BE(r.version, 8), BE(r.size, 8), EncodeStr(r.key), EncodeStr(r.checksum);
    var b := pre + (f4 + (f5 + (f6 + f7)));
    IntReadsBack(pre, r.version, 8, f5 + (f6 + f7));
    assert b == pre + f4 + (f5 + (f6 + f7));
    IntReadsBack(pre + f4, r.size, 8, f6 + f7);
    assert b == (pre + f4) + f5 + (f6 + f7);
    StrReadsBack(pre + f4 + f5, r.key, f7);
    assert b == (pre + f4 + f5) + f6 + f7;
    StrReadsBack(pre + f4 + f5 + f6, r.checksum, []);
    assert b == (pre + f4 + f5 + f6) + f7 + [];
  }

  /** Decoding undoes encoding, for every record that fits the fields. */
  lemma RecordRoundTrip(r: WalRecord)
    requires RecordFits(r)
    ensures DecodeBody(EncodeBody(r)) == Some(r) && 0 < |EncodeBody(r)| < U32
  {
    hide EncodeBody, DecodeBody;
    if r.Commit? {
      CommitRoundTrip(r.sn);
    } else {
      BeginRoundTrip(r);
    }
  }

  // ----- files -----

  function Bodies(records: seq<WalRecord>): (b: seq<Str>)
    ensures |b| == |records| && forall k :: 0 <= k < |records| ==> b[k] == EncodeBody(records[k])
  {
    seq(|records|, k requires 0 <= k < |records| => EncodeBody(records[k]))
  }

  function WalFile(records: seq<WalRecord>): Str {
    Frames(Bodies(records))
  }

  /** Records up to the first frame that is torn, corrupt or does not decode. */
  function LoadWal(bytes: Str): seq<WalRecord>
    decreases |bytes|
  {
    match FirstBody(bytes)
    case None => []
    case Some(body) =>
      match DecodeBody(body)
      case None => []
      case Some(r) => [r] + LoadWal(bytes[4 + |body| + 4..])
  }

  lemma {:induction false} LoadsPast(records: seq<WalRecord>, rest: Str)
    requires WalFits(records)
    ensures LoadWal(WalFile(records) + rest) == records + LoadWal(rest)
  {
    hide EncodeBody, DecodeBody, Frame, FirstBody;
    if records == [] {
      assert WalFile(records) + rest == rest;
    } else {
      RecordRoundTrip(records[0]);
      LoadsPast(records[1..], rest);
      assert Bodies(records)[1..] == Bodies(records[1..]);
      var tail := WalFile(records[1..]) + rest;
      assert WalFile(records) + rest == Frame(EncodeBody(records[0])) + tail;
      FirstFrameReads(EncodeBody(records[0]), tail);
    }
  }

  /**
    A log cut at any byte replays as the records whose frames lie wholly within the cut; an uncut log
    replays as the records that were appended.
   */
  lemma {:induction false} CutReplays(records: seq<WalRecord>, k: nat)
    requires WalFits(records) && k <= |WalFile(records)|
    ensures LoadWal(WalFile(records)[..k]) == records[..Whole(Bodies(records), k)]
    ensures k == |WalFile(records)| ==> LoadWal(WalFile(records)) == records
  {
    hide EncodeBody, DecodeBody, Frame, FirstBody;
    var file := WalFile(records);
    if records == [] {
      NothingReads();
      assert file[..k] == [] == file;
    } else {
      var body, rest := EncodeBody(records[0]), WalFile(records[1..]);
      RecordRoundTrip(records[0]);
      FrameSize(body);
      assert Bodies(records)[1..] == Bodies(records[1..]);
      var n := |body| + 8;
      assert file == Frame(body) + rest;
      if k < n {
        TornFrameEnds(body, k);
        assert file[..k] == Frame(body)[..k];
      } else {
        CutReplays(records[1..], k - n);
        assert file[..k] == Frame(body) + rest[..k - n];
        FirstFrameReads(body, rest[..k - n]);
        if k == |file| {
          assert file[..k] == file && rest[..k - n] == rest;
        }
      }
    }
  }

  /** A crash inside an append leaves the log as it was before the append. */
  lemma TornAppend(records: seq<WalRecord>, r: WalRecord, k: nat)
    requires WalFits(records) && RecordFits(r) && k <= |Frame(EncodeBody(r))|
    ensures LoadWal(WalFile(records) + Frame(EncodeBody(r))[..k]) ==
            if k < |Frame(EncodeBody(r))| then records else records + [r]
  {
    hide EncodeBody, DecodeBody, Frame, FirstBody;
    var body := EncodeBody(r);
    RecordRoundTrip(r);
    LoadsPast(records, Frame(body)[..k]);
    if k < |Frame(body)| {
      TornFrameEnds(body, k);
    } else {
      assert Frame(body)[..k] == Frame(body) + [];
      FirstFrameReads(body, []);
      NothingReads();
    }
  }

  lemma AppendedFile(records: seq<WalRecord>, r: WalRecord)
    ensures WalFile(records + [r]) == WalFile(records) + Frame(EncodeBody(r))
  {
    hide EncodeBody, Frame, Frames;
    assert Bodies(records + [r]) == Bodies(records) + [EncodeBody(r)];
    FramesConcat(Bodies(records), [EncodeBody(r)]);
    OneFrame(EncodeBody(r));
  }

  lemma EmptyFile()
    ensures WalFile([]) == []
  {
  }

  // ----- the log as an object -----

  method ComputeBody(r: WalRecord) returns (body: Str)
    ensures body == EncodeBody(r)
  {
    hide BE, EncodeStr;
    body := PutInt([], if r.Commit? then 1 else 0, 1);
    body := PutInt(body, r.sn, 8);
    if r.Begin? {
      body := PutInt(body, r.op, 1);
      body := PutInt(body, r.version, 8);
      body := PutInt(body, r.size, 8);
      body := PutStr(body, r.key);
      body := PutStr(body, r.checksum);
      FieldsInOrder(r, body);
    }
  }

  lemma FieldsInOrder(r: WalRecord, body: Str)
    requires r.Begin?
    requires body == BE(0, 1) + BE(r.sn, 8) + BE(r.op, 1) + BE(r.version, 8) + BE(r.size, 8) + EncodeStr(r.key) + EncodeStr(r.checksum)
    ensures body == EncodeBody(r)
  {
    hide BE, EncodeStr;
  }

  method ParseBody(body: Str) returns (r: Option<WalRecord>)
    ensures r == DecodeBody(body)
  {
    hide FromBE;
    var reader := new Reader(body);
    var ok, isCommit := reader.Int(1);
    if !ok {
      return None;
    }
    var sn;
    ok, sn := reader.Int(8);
    if !ok {
      return None;
    }
    if isCommit != 0 {
      return Some(Commit(sn));
    }
    r := ParseBegin(reader, sn);
  }

  method ParseBegin(reader: Reader, sn: nat) returns (r: Option<WalRecord>)
    modifies reader
    ensures r == DecodeBegin(reader.data, sn, old(reader.pos))
  {
    hide FromBE, ReadInt, ReadStr, ReadByte;
    var ok, op, version, size, key, checksum;
    ByteRange(reader.data, reader.pos);
    ok, op := reader.Int(1);
    if !ok {
      return None;
    }
    ok, version := reader.Int(8);
    if !ok {
      return None;
    }
    ok, size := reader.Int(8);
    if !ok {
      return None;
    }
    ok, key := reader.Str();
    if !ok {
      return None;
    }
    ok, checksum := reader.Str();
    if !ok {
      return None;
    }
    r := Some(Begin(sn, op, key, version, checksum, size));
  }

  lemma ByteRange(b: Str, pos: nat)
    ensures ReadInt(b, pos, 1).Some? ==> 0 <= ReadInt(b, pos, 1).value.0 < 256
  {
    var r := ReadByte(b, pos);
  }

  /** The loop of the source over positions. */
  method Replay(all: Str) returns (records: seq<WalRecord>)
    ensures records == LoadWal(all)
  {
    hide FromBE, Crc32, DecodeBody;
    records := [];
    var pos := 0;
    assert all[0..] == all;
    while pos + 4 <= |all|
      invariant pos <= |all| && records + LoadWal(all[pos..]) == LoadWal(all)
      decreases |all| - pos
    {
      var len := FourBytes(all, pos);
      var end := pos + 4 + len + 4;
      ghost var rest := all[pos..];
      assert rest[..4] == all[pos..pos + 4];
      if len == 0 || end > |all| {
        return;
      }
      var body := all[pos + 4..pos + 4 + len];
      var stored := FourBytes(all, pos + 4 + len);
      var crc := ComputeCrc32(body);
      assert rest[4..4 + len] == body && rest[4 + len..4 + len + 4] == all[pos + 4 + len..pos + 4 + len + 4];
      if crc != stored {
        return;
      }
      var r := ParseBody(body);
      if r.None? {
        return;
      }
      assert rest[4 + len + 4..] == all[end..];
      records := records + [r.value];
      pos := end;
    }
  }

  /** `bytes` is the file. Writes succeed. */
  class Log {
    var bytes: Str
    var nextSeq: nat

    /** Opening continues the sequence past whatever is on disk. */
    constructor (bytes: Str)
      ensures this.bytes == bytes && nextSeq >= 1
      ensures forall r :: r in LoadWal(bytes) ==> r.sn < nextSeq
      ensures nextSeq == 1 || exists r :: r in LoadWal(bytes) && r.sn + 1 == nextSeq
    {
      hide LoadWal;
      var existing := Replay(bytes);
      var maxSeq := 0;
      var i := 0;
      while i < |existing|
        invariant 0 <= i <= |existing|
        invariant forall k :: 0 <= k < i ==> existing[k].sn <= maxSeq
        invariant maxSeq == 0 || exists k :: 0 <= k < i && existing[k].sn == maxSeq
      {
        if existing[i].sn > maxSeq {
          maxSeq := existing[i].sn;
        }
        i := i + 1;
      }
      this.bytes := bytes;
      nextSeq := maxSeq + 1;
    }

    method NextSeq() returns (sn: nat)
      modifies this`nextSeq
      ensures sn == old(nextSeq) && nextSeq == sn + 1
    {
      sn := nextSeq;
      nextSeq := nextSeq + 1;
    }

    /** The frame goes behind whatever the file holds. */
    method AppendRecord(r: WalRecord)
      modifies this`bytes
      ensures bytes == old(bytes) + Frame(EncodeBody(r))
    {
      hide EncodeBody, Frame;
      var body := ComputeBody(r);
      var frame := ComputeFrame(body);
      bytes := bytes + frame;
    }

    method Truncate()
      modifies this
      ensures bytes == WalFile([]) && LoadWal(bytes) == [] && nextSeq == 1
    {
      EmptyFile();
      NothingReads();
      bytes := [];
      nextSeq := 1;
    }
  }
}
