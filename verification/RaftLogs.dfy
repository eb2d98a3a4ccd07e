/** Logs of a consensus group agree wherever their terms do. */
module RaftLogs {
  import opened ByteStrings
  import opened RaftTypes
  import opened RaftHandlers
  import opened RaftCluster
  import opened RaftInvariants

  /** Two logs with the same term at a position are the same up to it. */
  lemma SameTermSamePrefix(h: History, a: seq<LogEntry>, b: seq<LogEntry>, k: nat)
    requires LogOK(h, a) && LogOK(h, b)
    requires k < |a| && k < |b| && a[k].term == b[k].term
    ensures a[..k + 1] == b[..k + 1]
  {
    assert EntryOK(h, a, k) && EntryOK(h, b, k);
  }

  lemma TermsRise(h: History, members: set<Id>, log: seq<LogEntry>, i: nat, j: nat)
    requires LogOK(h, log) && LeadersOK(h, members) && i <= j < |log|
    ensures log[i].term <= log[j].term
  {
    assert EntryOK(h, log, j);
    var l := h.leaders[log[j].term].log;
    assert LeaderOK(h, members, log[j].term);
    assert log[i] == log[..j + 1][i] == l[i];
  }

  lemma TermsSorted(h: History, members: set<Id>, log: seq<LogEntry>)
    requires LogOK(h, log) && LeadersOK(h, members)
    ensures forall i, j :: 0 <= i <= j < |log| ==> log[i].term <= log[j].term
  {
    forall i, j | 0 <= i <= j < |log|
      ensures log[i].term <= log[j].term
    {
      TermsRise(h, members, log, i, j);
    }
  }

  lemma PrefixOK(h: History, log: seq<LogEntry>, k: nat)
    requires LogOK(h, log) && k <= |log|
    ensures LogOK(h, log[..k])
  {
    forall i | 0 <= i < k
      ensures EntryOK(h, log[..k], i)
    {
      assert EntryOK(h, log, i);
      assert log[..k][..i + 1] == log[..i + 1];
    }
  }

  lemma LogOKIsWf(h: History, log: seq<LogEntry>)
    requires LogOK(h, log)
    ensures WfLog(log)
  {
    forall k | 0 <= k < |log|
      ensures log[k].index == k + 1
    {
      assert EntryOK(h, log, k);
    }
  }

  /** Where the terms of `f` and `l` agree, so do the logs. */
  ghost predicate Matching(f: seq<LogEntry>, l: seq<LogEntry>) {
    forall k :: 0 <= k < |f| && k < |l| && f[k].term == l[k].term ==> f[..k + 1] == l[..k + 1]
  }

  lemma LogsMatch(h: History, a: seq<LogEntry>, b: seq<LogEntry>)
    requires LogOK(h, a) && LogOK(h, b)
    ensures Matching(a, b)
  {
    forall k | 0 <= k < |a| && k < |b| && a[k].term == b[k].term
      ensures a[..k + 1] == b[..k + 1]
    {
      SameTermSamePrefix(h, a, b, k);
    }
  }

  lemma PrefixMatches(l: seq<LogEntry>, k: nat)
    requires k <= |l| && WfLog(l)
    ensures Matching(l[..k], l) && WfLog(l[..k])
  {
  }

  /** How many of the entries the log already holds, before the first that is missing or of another term. */
  function Held(log: seq<LogEntry>, prev: nat, entries: seq<LogEntry>): (d: nat)
    requires prev <= |log|
    ensures d <= |entries| && prev + d <= |log|
    ensures forall i :: 0 <= i < d ==> log[prev + i].term == entries[i].term
    ensures d < |entries| && prev + d < |log| ==> log[prev + d].term != entries[d].term
    decreases |entries|
  {
    if entries == [] || prev == |log| || log[prev].term != entries[0].term then 0
    else 1 + Held(log, prev + 1, entries[1..])
  }

  lemma {:induction false} SpliceAppends(log: seq<LogEntry>, entries: seq<LogEntry>)
    requires WfLog(log) && Numbered(entries, |log|)
    ensures Splice(log, |log|, entries) == log + entries
    decreases |entries|
  {
    if entries == [] {
      assert log + entries == log;
    } else {
      SpliceAppends(log + [entries[0]], entries[1..]);
      assert log + [entries[0]] + entries[1..] == log + entries;
    }
  }

  lemma SpliceSkips(log: seq<LogEntry>, prev: nat, entries: seq<LogEntry>)
    requires WfLog(log) && prev < |log| && entries != [] && Numbered(entries, prev) && log[prev].term == entries[0].term
    ensures Numbered(entries[1..], prev + 1) && Splice(log, prev, entries) == Splice(log, prev + 1, entries[1..])
    ensures Held(log, prev, entries) == 1 + Held(log, prev + 1, entries[1..])
  {
  }

  lemma SpliceReplaces(log: seq<LogEntry>, prev: nat, entries: seq<LogEntry>)
    requires WfLog(log) && prev <= |log| && entries != [] && Numbered(entries, prev)
    requires prev == |log| || log[prev].term != entries[0].term
    ensures Held(log, prev, entries) == 0 && Splice(log, prev, entries) == log[..prev] + entries
  {
    hide Splice, WfLog, Numbered;
    var start := log[..prev] + [entries[0]];
    SpliceCuts(log, prev, entries);
    SpliceAppends(start, entries[1..]);
    assert start + entries[1..] == log[..prev] + entries;
  }

  lemma SpliceCuts(log: seq<LogEntry>, prev: nat, entries: seq<LogEntry>)
    requires WfLog(log) && prev <= |log| && entries != [] && Numbered(entries, prev)
    requires prev == |log| || log[prev].term != entries[0].term
    ensures WfLog(log[..prev] + [entries[0]]) && Numbered(entries[1..], prev + 1)
    ensures Splice(log, prev, entries) == Splice(log[..prev] + [entries[0]], prev + 1, entries[1..])
  {
    assert prev == |log| ==> log[..prev] == log;
  }

  /**
    The loop keeps the log if it holds all the entries; otherwise it keeps the log up to the first entry
    that is missing or conflicts, and puts the entries from there on behind it.
   */
  lemma {:induction false} SpliceExact(log: seq<LogEntry>, prev: nat, entries: seq<LogEntry>)
    requires WfLog(log) && prev <= |log| && Numbered(entries, prev)
    ensures var d := Held(log, prev, entries);
            Splice(log, prev, entries) == if d == |entries| then log else log[..prev + d] + entries[d..]
    decreases |entries|
  {
    hide Splice, Held, WfLog, Numbered;
    if entries == [] {
      SpliceNothing(log, prev);
    } else if prev < |log| && log[prev].term == entries[0].term {
      SpliceSkips(log, prev, entries);
      SpliceExact(log, prev + 1, entries[1..]);
      var d := Held(log, prev + 1, entries[1..]);
      assert entries[1..][d..] == entries[d + 1..];
    } else {
      SpliceReplaces(log, prev, entries);
      assert entries[0..] == entries;
    }
  }

  lemma SpliceNothing(log: seq<LogEntry>, prev: nat)
    requires WfLog(log) && prev <= |log|
    ensures Numbered([], prev) && Splice(log, prev, []) == log && Held(log, prev, []) == 0
  {
  }

  /**
    The loop over the entries of a request leaves the follower's log alone when it already holds what
    the leader sent, and otherwise leaves exactly the leader's log up to the last entry sent.
   */
  lemma {:induction false} SpliceMeaning(f: seq<LogEntry>, l: seq<LogEntry>, prev: nat, end: nat)
    requires WfLog(f) && WfLog(l) && Matching(f, l)
    requires prev <= |f| && prev <= end <= |l| && f[..prev] == l[..prev]
    ensures Splice(f, prev, l[prev..end]) == if l[..end] <= f then f else l[..end]
    decreases end - prev
  {
    if prev < end {
      var e := l[prev];
      assert l[prev..end][0] == e && l[prev..end][1..] == l[prev + 1..end];
      if prev < |f| && f[prev].term == e.term {
        assert f[..prev + 1] == l[..prev + 1];
        SpliceMeaning(f, l, prev + 1, end);
      } else {
        assert f[..prev] + [e] == l[..prev + 1];
        PrefixMatches(l, prev + 1);
        SpliceMeaning(l[..prev + 1], l, prev + 1, end);
        assert prev < |f| ==> l[..end][prev] != f[prev];
        assert prev == |f| ==> f[..prev] == f;
      }
    }
  }

  /** What both logs start with survives the loop. */
  lemma SpliceKeeps(f: seq<LogEntry>, l: seq<LogEntry>, end: nat, p: seq<LogEntry>)
    requires end <= |l| && p <= f && p <= l
    ensures p <= if l[..end] <= f then f else l[..end]
  {
    if |p| > end {
      assert l[..end] == p[..end];
    }
  }
}
