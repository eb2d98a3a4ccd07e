/** The two files of a consensus node: the hard state, replaced whole, and the framed log. */
module RaftStorage {
  import opened ByteStrings
  import opened Crc
  import opened Wire
  import opened FramedLog
  import opened RaftTypes

  datatype HardState = HardState(term: nat, votedFor: Id)

  // ----- records -----

  function EncodeEntry(e: LogEntry): Str {
    BE(e.term, 8) + BE(e.index, 8) + EncodeStr(e.command)
  }

  /** Bytes behind the command are not looked at. */
  function DecodeEntry(body: Str): Option<LogEntry> {
    match ReadInt(body, 0, 8)
    case None => None
    case Some((term, p)) =>
      match ReadInt(body, p, 8)
      case None => None
      case Some((index, q)) =>
        match ReadStr(body, q)
        case None => None
        case Some((command, _)) => Some(LogEntry(term, index, command))
  }

  function EncodeHard(hs: HardState): Str {
    BE(hs.term, 8) + EncodeStr(hs.votedFor)
  }

  function DecodeHard(body: Str): Option<HardState> {
    match ReadInt(body, 0, 8)
    case None => None
    case Some((term, p)) =>
      match ReadStr(body, p)
      case None => None
      case Some((votedFor, _)) => Some(HardState(term, votedFor))
  }

  /** What fits the fixed-width fields and the length of a frame. */
  predicate EntryFits(e: LogEntry) {
    e.term < U64 && e.index < U64 && |e.command| < U32 - 20
  }

  predicate LogFits(log: seq<LogEntry>) {
    forall k :: 0 <= k < |log| ==> EntryFits(log[k])
  }

  predicate HardFits(hs: HardState) {
    hs.term < U64 && |hs.votedFor| < U32 - 12
  }

  lemma EntryRoundTrip(e: LogEntry)
    requires EntryFits(e)
    ensures DecodeEntry(EncodeEntry(e)) == Some(e) && 0 < |EncodeEntry(e)| < U32
  {
    hide BE, FromBE, Pow256, EncodeStr, ReadInt, ReadStr;
    var t, i, s := BE(e.term, 8), BE(e.index, 8), EncodeStr(e.command);
    StrSize(e.command);
    Widths();
    IntReadsBack([], e.term, 8, i + s);
    IntReadsBack(t, e.index, 8, s);
    StrReadsBack(t + i, e.command, []);
    assert EncodeEntry(e) == [] + t + (i + s) == t + i + s == t + i + s + [];
  }

  lemma HardRoundTrip(hs: HardState)
    requires HardFits(hs)
    ensures DecodeHard(EncodeHard(hs)) == Some(hs) && 0 < |EncodeHard(hs)| < U32
  {
    hide BE, FromBE, Pow256, EncodeStr, ReadInt, ReadStr;
    var t, s := BE(hs.term, 8), EncodeStr(hs.votedFor);
    StrSize(hs.votedFor);
    Widths();
    IntReadsBack([], hs.term, 8, s);
    StrReadsBack(t, hs.votedFor, []);
    assert EncodeHard(hs) == [] + t + s == t + s + [];
  }

  /** Where the fields of an entry and of the hard state are, big-endian. */
  lemma EntryLayout(e: LogEntry)
    requires EntryFits(e)
    ensures var b := EncodeEntry(e);
            && |b| == 20 + |e.command| && FromBE(b[..8]) == e.term && FromBE(b[8..16]) == e.index
            && FromBE(b[16..20]) == |e.command| && b[20..] == e.command
  {
    hide BE, FromBE;
    U64RoundTrip(e.term);
    U64RoundTrip(e.index);
    U32RoundTrip(|e.command|);
    var b := EncodeEntry(e);
    assert b[..8] == BE(e.term, 8) && b[8..16] == BE(e.index, 8) && b[16..20] == BE(|e.command|, 4) && b[20..] == e.command;
  }

  lemma HardLayout(hs: HardState)
    requires HardFits(hs)
    ensures var b := EncodeHard(hs);
            |b| == 12 + |hs.votedFor| && FromBE(b[..8]) == hs.term && FromBE(b[8..12]) == |hs.votedFor| && b[12..] == hs.votedFor
  {
    hide BE, FromBE;
    U64RoundTrip(hs.term);
    U32RoundTrip(|hs.votedFor|);
    var b := EncodeHard(hs);
    assert b[..8] == BE(hs.term, 8) && b[8..12] == BE(|hs.votedFor|, 4) && b[12..] == hs.votedFor;
  }

  // ----- files -----

  function Bodies(log: seq<LogEntry>): (b: seq<Str>)
    ensures |b| == |log| && forall k :: 0 <= k < |log| ==> b[k] == EncodeEntry(log[k])
  {
    seq(|log|, k requires 0 <= k < |log| => EncodeEntry(log[k]))
  }

  /** Entries up to the first body that does not decode. */
  function DecodeAll(bodies: seq<Str>): seq<LogEntry> {
    if bodies == [] then []
    else
      match DecodeEntry(bodies[0])
      case None => []
      case Some(e) => [e] + DecodeAll(bodies[1..])
  }

  function LogFile(log: seq<LogEntry>): Str {
    Frames(Bodies(log))
  }

  function LoadLog(bytes: Str): seq<LogEntry> {
    DecodeAll(ReadFrames(bytes))
  }

  function HardFile(hs: HardState): Str {
    Frame(EncodeHard(hs))
  }

  /** The last intact record wins; without one, the defaults hold. */
  function LoadHard(bytes: Str): HardState {
    var records := ReadFrames(bytes);
    if records == [] then HardState(0, NOBODY)
    else
      match DecodeHard(records[|records| - 1])
      case None => HardState(0, NOBODY)
      case Some(hs) => hs
  }

  lemma {:induction false} DecodeAllBodies(log: seq<LogEntry>)
    requires LogFits(log)
    ensures DecodeAll(Bodies(log)) == log && Framable(Bodies(log))
  {
    hide EncodeEntry, DecodeEntry;
    forall k | 0 <= k < |log|
      ensures 0 < |Bodies(log)[k]| < U32
    {
      EntryRoundTrip(log[k]);
    }
    if log != [] {
      EntryRoundTrip(log[0]);
      DecodeAllBodies(log[1..]);
      assert Bodies(log)[1..] == Bodies(log[1..]);
    }
  }

  /**
    A log file cut at any byte loads as the entries whose frames lie wholly within the cut; an uncut
    file loads as the log that was written.
   */
  lemma LogFileLoads(log: seq<LogEntry>, k: nat)
    requires LogFits(log) && k <= |LogFile(log)|
    ensures LoadLog(LogFile(log)[..k]) == log[..Whole(Bodies(log), k)]
    ensures k == |LogFile(log)| ==> LoadLog(LogFile(log)) == log
  {
    hide EncodeEntry, DecodeEntry, Frames, ReadFrames, Whole;
    DecodeAllBodies(log);
    PrefixReads(Bodies(log), k);
    var m := Whole(Bodies(log), k);
    assert Bodies(log)[..m] == Bodies(log[..m]);
    DecodeAllBodies(log[..m]);
    if k == |LogFile(log)| {
      WholeAll(Bodies(log));
      assert LogFile(log)[..k] == LogFile(log) && log[..|log|] == log;
    }
  }

  lemma HardFileLoads(hs: HardState)
    requires HardFits(hs)
    ensures LoadHard(HardFile(hs)) == hs
  {
    hide EncodeHard, DecodeHard, Frame, ReadFrames;
    HardRoundTrip(hs);
    FramesReadBack([EncodeHard(hs)]);
    OneFrame(EncodeHard(hs));
  }

  lemma AppendedFile(log: seq<LogEntry>, e: LogEntry)
    ensures LogFile(log + [e]) == LogFile(log) + Frame(EncodeEntry(e))
  {
    hide EncodeEntry, Frame, Frames;
    assert Bodies(log + [e]) == Bodies(log) + [EncodeEntry(e)];
    FramesConcat(Bodies(log), [EncodeEntry(e)]);
    OneFrame(EncodeEntry(e));
  }

  // ----- the files as an object -----

  method ComputeEntry(e: LogEntry) returns (body: Str)
    ensures body == EncodeEntry(e)
  {
    hide BE, EncodeStr;
    body := PutInt([], e.term, 8);
    body := PutInt(body, e.index, 8);
    body := PutStr(body, e.command);
    assert body == EncodeEntry(e);
  }

  method ParseEntry(body: Str) returns (r: Option<LogEntry>)
    ensures r == DecodeEntry(body)
  {
    var reader := new Reader(body);
    var ok, term := reader.Int(8);
    if !ok {
      return None;
    }
    var index;
    ok, index := reader.Int(8);
    if !ok {
      return None;
    }
    var command;
    ok, command := reader.Str();
    if !ok {
      return None;
    }
    r := Some(LogEntry(term, index, command));
  }

  /** `state` and `log` are the bytes of the two files. Writes succeed; a replacement is atomic. */
  class Storage {
    var state: Str
    var log: Str

    constructor (state: Str, log: Str)
      ensures this.state == state && this.log == log
    {
      this.state, this.log := state, log;
    }

    method LoadedHardState() returns (hs: HardState)
      ensures hs == LoadHard(state)
    {
      hide ReadFrames, FromBE;
      var records := ReadFramedRecords(state);
      hs := HardState(0, NOBODY);
      if records != [] {
        var reader := new Reader(records[|records| - 1]);
        var ok, term := reader.Int(8);
        if ok {
          var votedFor;
          ok, votedFor := reader.Str();
          if ok {
            hs := HardState(term, votedFor);
          }
        }
      }
    }

    method LoadedLog() returns (entries: seq<LogEntry>)
      ensures entries == LoadLog(log)
    {
      hide DecodeEntry, ReadFrames;
      var records := ReadFramedRecords(log);
      entries := [];
      var i := 0;
      while i < |records|
        invariant 0 <= i <= |records| && entries + DecodeAll(records[i..]) == DecodeAll(records)
      {
        var e := ParseEntry(records[i]);
        assert records[i..][1..] == records[i + 1..];
        if e.None? {
          return;
        }
        entries := entries + [e.value];
        i := i + 1;
      }
    }

    method SaveHardState(hs: HardState)
      modifies this`state
      ensures state == HardFile(hs)
    {
      hide BE, Crc32;
      var body := PutInt([], hs.term, 8);
      body := PutStr(body, hs.votedFor);
      assert body == EncodeHard(hs);
      state := ComputeFrame(body);
    }

    method AppendEntry(e: LogEntry)
      modifies this`log
      ensures log == old(log) + Frame(EncodeEntry(e))
    {
      hide EncodeEntry, Frame;
      var body := ComputeEntry(e);
      var frame := ComputeFrame(body);
      log := log + frame;
    }

    method RewriteLog(entries: seq<LogEntry>)
      modifies this`log
      ensures log == LogFile(entries)
    {
      hide EncodeEntry, Frame, Frames;
      var all := [];
      EmptyFile();
      for i := 0 to |entries|
        invariant all == LogFile(entries[..i])
      {
        var body := ComputeEntry(entries[i]);
        var frame := ComputeFrame(body);
        AppendedFile(entries[..i], entries[i]);
        assert entries[..i] + [entries[i]] == entries[..i + 1];
        all := all + frame;
      }
      assert entries[..|entries|] == entries;
      log := all;
    }
  }

  lemma EmptyFile()
    ensures forall log: seq<LogEntry> :: log == [] ==> LogFile(log) == []
  {
  }
}
