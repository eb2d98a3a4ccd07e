/**
  What becomes of an entry appended behind the torn frame of another one. Opening the log drops a torn
  tail in memory only, so the bytes stay in the file.
 */
module TornTail {
  import opened ByteStrings
  import opened Crc
  import opened Wire
  import opened FramedLog
  import opened RaftTypes
  import opened RaftStorage
  import opened RaftCluster
  import opened RaftSafety
  import opened RaftRestart

  lemma {:induction false} DecodeAllConcat(log: seq<LogEntry>, more: seq<Str>)
    requires LogFits(log)
    ensures DecodeAll(Bodies(log) + more) == log + DecodeAll(more)
  {
    hide EncodeEntry, DecodeEntry;
    if log == [] {
      assert Bodies(log) + more == more;
    } else {
      EntryRoundTrip(log[0]);
      DecodeAllConcat(log[1..], more);
      assert (Bodies(log) + more)[1..] == Bodies(log[1..]) + more;
    }
  }

  lemma LoadsPastPrefix(log: seq<LogEntry>, rest: Str)
    requires LogFits(log)
    ensures LoadLog(LogFile(log) + rest) == log + LoadLog(rest)
  {
    hide Frames, ReadFrames, DecodeAll;
    DecodeAllBodies(log);
    ReadsPastPrefix(Bodies(log), rest);
    DecodeAllConcat(log, ReadFrames(rest));
  }

  /** A file whose first body does not decode as `e` does not load as `e` alone. */
  lemma FirstDecides(all: Str, e: LogEntry)
    requires FirstBody(all).Some? ==> DecodeEntry(FirstBody(all).value) != Some(e)
    ensures LoadLog(all) != [e]
  {
    hide FirstBody, DecodeEntry;
    if FirstBody(all).Some? && DecodeEntry(FirstBody(all).value).Some? {
      assert LoadLog(all)[0] == DecodeEntry(FirstBody(all).value).value;
    }
  }

  lemma BodySize(e: LogEntry)
    ensures |EncodeEntry(e)| == 20 + |e.command|
  {
  }

  // ----- a tail that keeps the term -----

  /** The first body read behind such a tail starts with the term of `e0`. */
  lemma TornTermStays(e0: LogEntry, k: nat, rest: Str)
    requires EntryFits(e0) && 12 <= k < |Frame(EncodeEntry(e0))|
    ensures var first := FirstBody(Frame(EncodeEntry(e0))[..k] + rest);
            first.Some? ==> |first.value| >= 8 && FromBE(first.value[..8]) == e0.term
  {
    hide FromBE, BE, Crc32, EncodeStr;
    var body := EncodeEntry(e0);
    var all := Frame(body)[..k] + rest;
    EntryRoundTrip(e0);
    BodySize(e0);
    U32RoundTrip(|body|);
    U64RoundTrip(e0.term);
    assert all[..4] == BE(|body|, 4);
    if 4 + |body| + 4 <= |all| {
      assert all[4..4 + |body|][..8] == all[4..12] == Frame(body)[4..12] == body[..8] == BE(e0.term, 8);
    }
  }

  lemma TermOfDecoded(body: Str)
    requires |body| >= 8 && DecodeEntry(body).Some?
    ensures DecodeEntry(body).value.term == FromBE(body[..8])
  {
    hide FromBE;
    assert body[0..8] == body[..8];
  }

  lemma LongTail(e0: LogEntry, e: LogEntry, k: nat)
    requires EntryFits(e0) && e.term != e0.term && 12 <= k < |Frame(EncodeEntry(e0))|
    ensures LoadLog(Frame(EncodeEntry(e0))[..k] + Frame(EncodeEntry(e))) != [e]
  {
    hide EncodeEntry, DecodeEntry, FirstBody, Frame, FromBE, LoadLog;
    var all := Frame(EncodeEntry(e0))[..k] + Frame(EncodeEntry(e));
    TornTermStays(e0, k, Frame(EncodeEntry(e)));
    if FirstBody(all).Some? && DecodeEntry(FirstBody(all).value).Some? {
      TermOfDecoded(FirstBody(all).value);
    }
    FirstDecides(all, e);
  }

  // ----- a tail that ends inside the length or the term -----

  /** The bytes of the frame of `e` before the command: the two lengths, the term and the index. */
  function Head(e: LogEntry): (h: Str)
    ensures |h| == 24
  {
    BE(20 + |e.command|, 4) + BE(e.term, 8) + BE(e.index, 8) + BE(|e.command|, 4)
  }

  /** Shifted by k bytes, the head reads as itself from the term on. */
  predicate Repeats(e: LogEntry, k: nat) {
    forall j :: 4 <= j < 24 && k <= j ==> Head(e)[j] == Head(e)[j - k]
  }

  lemma HeadOfFrame(e: LogEntry)
    requires EntryFits(e)
    ensures |Frame(EncodeEntry(e))| >= 28 && Frame(EncodeEntry(e))[..24] == Head(e)
  {
    hide BE, Crc32;
    BodySize(e);
  }

  lemma DecodedHead(body: Str, e: LogEntry)
    requires EntryFits(e) && DecodeEntry(body) == Some(e)
    ensures |body| >= 20 && body[..20] == Head(e)[4..]
  {
    hide BE, FromBE;
    U64RoundTrip(e.term);
    U64RoundTrip(e.index);
    U32RoundTrip(|e.command|);
    FromBEInjective(body[0..8], BE(e.term, 8));
    FromBEInjective(body[8..16], BE(e.index, 8));
    FromBEInjective(body[16..20], BE(|e.command|, 4));
    assert body[..20] == body[0..8] + body[8..16] + body[16..20];
  }

  lemma FirstBodyAt(all: Str, n: nat)
    requires FirstBody(all).Some? && n <= |FirstBody(all).value|
    ensures |all| >= 4 + n && FirstBody(all).value[..n] == all[4..4 + n]
  {
    hide FromBE, Crc32;
  }

  /** If the entry is read first behind such a tail, its head repeats. */
  lemma ReadHeadRepeats(e0: LogEntry, e: LogEntry, k: nat)
    requires EntryFits(e0) && EntryFits(e) && 0 < k < 12 && k <= |Frame(EncodeEntry(e0))|
    requires var first := FirstBody(Frame(EncodeEntry(e0))[..k] + Frame(EncodeEntry(e)));
             first.Some? && DecodeEntry(first.value) == Some(e)
    ensures Repeats(e, k)
  {
    hide EncodeEntry, DecodeEntry, FirstBody, Frame, FromBE, Head;
    HeadOfFrame(e);
    var f := Frame(EncodeEntry(e));
    var all := Frame(EncodeEntry(e0))[..k] + f;
    var body := FirstBody(all).value;
    DecodedHead(body, e);
    FirstBodyAt(all, 20);
    forall j | 4 <= j < 24 && k <= j
      ensures Head(e)[j] == Head(e)[j - k]
    {
      assert Head(e)[j] == body[..20][j - 4] == all[4..24][j - 4] == all[j] == f[j - k] == f[..24][j - k];
    }
  }

  lemma ShortTail(e0: LogEntry, e: LogEntry, k: nat)
    requires EntryFits(e0) && EntryFits(e) && 0 < k < 12 && !Repeats(e, k)
    ensures k <= |Frame(EncodeEntry(e0))|
    ensures LoadLog(Frame(EncodeEntry(e0))[..k] + Frame(EncodeEntry(e))) != [e]
  {
    hide EncodeEntry, DecodeEntry, FirstBody, Frame, FromBE, Repeats, LoadLog;
    HeadOfFrame(e0);
    var all := Frame(EncodeEntry(e0))[..k] + Frame(EncodeEntry(e));
    if FirstBody(all).Some? && DecodeEntry(FirstBody(all).value) == Some(e) {
      ReadHeadRepeats(e0, e, k);
    }
    FirstDecides(all, e);
  }

  // ----- which heads repeat -----

  lemma HeadBytes(e: LogEntry)
    requires EntryFits(e)
    ensures 20 + |e.command| == Quad(Head(e), 0) && |e.command| == Quad(Head(e), 20)
  {
    hide BE, FromBE;
    var l, c := BE(20 + |e.command|, 4), BE(|e.command|, 4);
    U32RoundTrip(20 + |e.command|);
    U32RoundTrip(|e.command|);
    FourBE(l);
    FourBE(c);
  }

  lemma SmallTerm(e: LogEntry)
    requires e.term < 0x100_0000
    ensures var h := Head(e); h[4] == h[5] == h[6] == h[7] == h[8] == 0
    ensures var h := Head(e); e.term == h[9] as nat * 0x1_0000 + h[10] as nat * 0x100 + h[11]
  {
    hide BE, FromBE, Quad;
    var t := BE(e.term, 8);
    U64RoundTrip(e.term);
    EightBE(t);
    LowQuad(t);
    assert Head(e)[4..12] == t;
  }

  lemma LowQuad(t: Str)
    requires |t| == 8 && 0x1_0000_0000 * Quad(t, 0) + Quad(t, 4) < 0x100_0000
    ensures t[0] == t[1] == t[2] == t[3] == t[4] == 0
    ensures 0x1_0000_0000 * Quad(t, 0) + Quad(t, 4) == t[5] as nat * 0x1_0000 + t[6] as nat * 0x100 + t[7]
  {
    assert Quad(t, 0) == 0;
  }

  /** A tail whose length divides 20 makes the two lengths end in one byte, though they differ by 20. */
  lemma DivisorsNeverRepeat(e: LogEntry, k: nat)
    requires EntryFits(e) && k in {1, 2, 4, 5, 10}
    ensures !Repeats(e, k)
  {
    hide Head, Quad;
    var h := Head(e);
    if Repeats(e, k) {
      if k == 1 {
        assert h[23] == h[22] == h[21] == h[20] == h[19] == h[18] == h[17] == h[16] == h[15] == h[14] == h[13];
        assert h[13] == h[12] == h[11] == h[10] == h[9] == h[8] == h[7] == h[6] == h[5] == h[4] == h[3];
      } else if k == 2 {
        assert h[23] == h[21] == h[19] == h[17] == h[15] == h[13] == h[11] == h[9] == h[7] == h[5] == h[3];
      } else if k == 4 {
        assert h[23] == h[19] == h[15] == h[11] == h[7] == h[3];
      } else if k == 5 {
        assert h[23] == h[18] == h[13] == h[8] == h[3];
      } else {
        assert h[23] == h[13] == h[3];
      }
      HeadBytes(e);
      LowBytes(h);
    }
  }

  lemma LowBytes(h: Str)
    requires |h| == 24 && h[23] == h[3]
    ensures Quad(h, 0) != 20 + Quad(h, 20)
  {
  }

  lemma ThreeNeverRepeats(e: LogEntry)
    requires EntryFits(e)
    ensures !Repeats(e, 3)
  {
    hide Head, Quad;
    var h := Head(e);
    if Repeats(e, 3) {
      assert h[20] == h[17] == h[14] == h[11] == h[8] == h[5] == h[2];
      assert h[21] == h[18] == h[15] == h[12] == h[9] == h[6] == h[3];
      assert h[22] == h[19] == h[16] == h[13] == h[10] == h[7] == h[4] == h[1];
      assert h[23] == h[20];
      HeadBytes(e);
      Rotated(h);
    }
  }

  lemma Rotated(h: Str)
    requires |h| == 24 && h[20] == h[23] == h[2] && h[21] == h[3] && h[22] == h[1]
    ensures Quad(h, 0) != 20 + Quad(h, 20)
  {
    var a: nat, p: nat, q: nat, r: nat := h[0], h[1], h[2], h[3];
    if Quad(h, 0) == 20 + Quad(h, 20) {
      assert 0x100_0000 * a + 0x1_0000 * p + 0x100 * q + r == 20 + 0x100_0000 * q + 0x1_0000 * r + 0x100 * p + q;
      RotatedSum(a, p, q, r);
    }
  }

  lemma RotatedSum(a: nat, p: nat, q: nat, r: nat)
    requires a < 256 && p < 256 && q < 256 && r < 256
    ensures 0x100_0000 * a + 0x1_0000 * p + 0x100 * q + r != 20 + 0x100_0000 * q + 0x1_0000 * r + 0x100 * p + q
  {
    if 0x100_0000 * a + 0x1_0000 * p + 0x100 * q + r == 20 + 0x100_0000 * q + 0x1_0000 * r + 0x100 * p + q {
      var high, low := 0x1_0000 * a + 0x100 * p + q, 0x1_0000 * q + 0x100 * r + p;
      if q < 236 {
        Digit(high, r, low, q + 20);
        Digit(0x100 * a + p, q, 0x100 * q + r, p);
        Digit(a, p, q, r);
      } else {
        Digit(high, r, low + 1, q - 236);
        if p < 255 {
          Digit(0x100 * a + p, q, 0x100 * q + r, p + 1);
          Digit(a, p, q, r);
        }
      }
    }
  }

  lemma Digit(x: nat, d: nat, y: nat, d': nat)
    requires 256 * x + d == 256 * y + d' && d < 256 && d' < 256
    ensures x == y && d == d'
  {
  }

  lemma SixNeverRepeats(e: LogEntry)
    requires EntryFits(e) && e.term < 0x100_0000
    ensures !Repeats(e, 6)
  {
    hide Head;
    var h := Head(e);
    if Repeats(e, 6) {
      assert h[20] == h[14] == h[8] && h[21] == h[15] == h[9] == h[3] && h[22] == h[16] == h[10] == h[4];
      assert h[23] == h[17] == h[11] == h[5] && h[6] == h[0] && h[7] == h[1] && h[8] == h[2];
      SmallTerm(e);
      HeadBytes(e);
    }
  }

  lemma SevenRepeats(e: LogEntry)
    requires EntryFits(e) && e.term < 0x100_0000 && Repeats(e, 7)
    ensures e.term == 5120 && e.command == []
  {
    hide Head;
    var h := Head(e);
    assert h[20] == h[13] == h[6] && h[21] == h[14] == h[7] == h[0] && h[22] == h[15] == h[8] == h[1];
    assert h[23] == h[16] == h[9] == h[2] && h[10] == h[3] && h[11] == h[4];
    SmallTerm(e);
    HeadBytes(e);
  }

  lemma EightRepeats(e: LogEntry)
    requires EntryFits(e) && e.term < 0x100_0000 && Repeats(e, 8)
    ensures e.term == 20 && e.command == []
  {
    hide Head;
    var h := Head(e);
    assert h[20] == h[12] == h[4] && h[21] == h[13] == h[5] && h[22] == h[14] == h[6] && h[23] == h[15] == h[7];
    assert h[8] == h[0] && h[9] == h[1] && h[10] == h[2] && h[11] == h[3];
    SmallTerm(e);
    HeadBytes(e);
  }

  lemma NineRepeats(e: LogEntry)
    requires EntryFits(e) && e.term < 0x100_0000 && Repeats(e, 9)
    ensures e.term == 5120 && |e.command| == 1310720
  {
    hide Head;
    var h := Head(e);
    assert h[20] == h[11] == h[2] && h[21] == h[12] == h[3] && h[22] == h[13] == h[4] && h[23] == h[14] == h[5];
    assert h[9] == h[0] && h[10] == h[1];
    SmallTerm(e);
    HeadBytes(e);
    HighHalf(h[0], h[1], h[2], h[3]);
  }

  lemma HighHalf(a: nat, b: nat, c: nat, d: nat)
    requires a < 256 && b < 256 && c < 256 && d < 256
    requires 0x100_0000 * a + 0x1_0000 * b + 0x100 * c + d == 20 + 0x100_0000 * c + 0x1_0000 * d
    ensures a == 0 && b == 20 && c == 0 && d == 20
  {
    Digit(0x1_0000 * a + 0x100 * b + c, d, 0x1_0000 * c + 0x100 * d, 20);
    Digit(0x100 * a + b, c, 0x100 * c + d, 0);
  }

  lemma ElevenRepeats(e: LogEntry)
    requires EntryFits(e) && 0 < e.term < 0x100_0000 && Repeats(e, 11)
    ensures |e.command| >= 65537
  {
    hide Head;
    var h := Head(e);
    assert h[20] == h[9] && h[21] == h[10] && h[22] == h[11] == h[0] && h[23] == h[12] == h[1];
    SmallTerm(e);
    HeadBytes(e);
  }

  /** For terms below 2 to the 24, no head repeats but these. */
  lemma RepeatsRarely(e: LogEntry, k: nat)
    requires EntryFits(e) && 0 < e.term < 0x100_0000 && 0 < k < 12 && Repeats(e, k)
    ensures || (k == 7 && e.term == 5120 && e.command == [])
            || (k == 8 && e.term == 20 && e.command == [])
            || (k == 9 && e.term == 5120 && |e.command| == 1310720)
            || (k == 11 && |e.command| >= 65537)
  {
    hide Repeats;
    if k in {1, 2, 4, 5, 10} {
      DivisorsNeverRepeat(e, k);
    } else if k == 3 {
      ThreeNeverRepeats(e);
    } else if k == 6 {
      SixNeverRepeats(e);
    } else if k == 7 {
      SevenRepeats(e);
    } else if k == 8 {
      EightRepeats(e);
    } else if k == 9 {
      NineRepeats(e);
    } else {
      ElevenRepeats(e);
    }
  }

  // ----- the theorem -----

  /**
    The entry is found again exactly when nothing of the torn frame was left, unless its own head
    repeats at the length of the tail.
   */
  lemma AppendBehindTornTail(log: seq<LogEntry>, e0: LogEntry, e: LogEntry, k: nat)
    requires LogFits(log) && EntryFits(e0) && EntryFits(e) && e.term != e0.term
    requires k < |Frame(EncodeEntry(e0))|
    ensures LoadLog(LogFile(log) + Frame(EncodeEntry(e0))[..k]) == log
    ensures || (k in {6, 7, 8, 9, 11} && Repeats(e, k))
            || (LoadLog(LogFile(log) + Frame(EncodeEntry(e0))[..k] + Frame(EncodeEntry(e))) == log + [e] <==> k == 0)
  {
    hide EncodeEntry, DecodeEntry, FirstBody, Frame, LogFile, FromBE, Repeats;
    var tail, frame := Frame(EncodeEntry(e0))[..k], Frame(EncodeEntry(e));
    EntryRoundTrip(e0);
    EntryRoundTrip(e);
    LoadsPastPrefix(log, tail);
    TornFrameEnds(EncodeEntry(e0), k);
    assert LoadLog(tail) == [];
    LoadsPastPrefix(log, tail + frame);
    assert LogFile(log) + tail + frame == LogFile(log) + (tail + frame);
    if k == 0 {
      assert tail + frame == frame + [];
      FirstFrameReads(EncodeEntry(e), []);
      NothingReads();
    } else if k >= 12 {
      LongTail(e0, e, k);
    } else if k !in {6, 7, 8, 9, 11} || !Repeats(e, k) {
      if k == 3 {
        ThreeNeverRepeats(e);
      } else if k in {1, 2, 4, 5, 10} {
        DivisorsNeverRepeat(e, k);
      }
      ShortTail(e0, e, k);
    }
    assert (log + LoadLog(tail + frame))[|log|..] == LoadLog(tail + frame) && (log + [e])[|log|..] == [e];
  }

  /** For every tail, the entry is found again exactly when the tail is empty. */
  lemma OnlyCleanTailKeeps(log: seq<LogEntry>, e0: LogEntry, e: LogEntry, k: nat)
    requires LogFits(log) && EntryFits(e0) && EntryFits(e) && e.term != e0.term
    requires 0 < e.term < 0x100_0000 && 0 < |e.command| < 65537
    requires k < |Frame(EncodeEntry(e0))|
    ensures LoadLog(LogFile(log) + Frame(EncodeEntry(e0))[..k] + Frame(EncodeEntry(e))) == log + [e] <==> k == 0
  {
    hide EncodeEntry, Frame, LogFile, LoadLog, Repeats;
    AppendBehindTornTail(log, e0, e, k);
    if 0 < k < 12 && Repeats(e, k) {
      RepeatsRarely(e, k);
      assert false;
    }
  }

  /**
    In every run of a group: node n crashed at step i while it wrote the frame of `e0`, an entry of its
    term, and k bytes of the frame reached the file behind the frames of `log`. What the node proposes at a
    later step j, with the tail still there, is in the file, as it loads, exactly if k is 0.
   */
  lemma ProposalAfterCrash(states: seq<Cluster>, acts: seq<Action>, i: nat, j: nat, log: seq<LogEntry>, e0: LogEntry, k: nat)
    requires IsRun(states, acts) && i < j < |acts| && acts[i].CrashAt? && acts[j].SubmitAt? && acts[j].n == acts[i].n
    requires acts[i].n in states[i].nodes && e0.term == states[i].nodes[acts[i].n].term
    requires acts[j].n in states[j].nodes && EntryFits(Proposed(states, acts, j))
    requires Proposed(states, acts, j).term < 0x100_0000 && 0 < |acts[j].command| < 65537
    requires LogFits(log) && EntryFits(e0) && k < |Frame(EncodeEntry(e0))|
    ensures var e := Proposed(states, acts, j);
            LoadLog(LogFile(log) + Frame(EncodeEntry(e0))[..k] + Frame(EncodeEntry(e))) == log + [e] <==> k == 0
  {
    hide IsRun, EncodeEntry, Frame, LogFile, LoadLog, EntryFits;
    LastIsWf(states, acts);
    LeadsNewerTerm(states, acts, i, j);
    OnlyCleanTailKeeps(log, e0, Proposed(states, acts, j), k);
  }
}
