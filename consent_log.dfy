/** The consent audit log of one (account, client) pair as a value: a
    sequence of entries from oldest to newest, the trim that keeps only the
    latest entries, and the trim-then-append step that closing a logging
    context performs. The LoggingContext class in consent_service.dfy is
    proved against TrimThenAppend. */
module ConsentLog {
  import opened Base

  /** Retention cap for the entries of one pair (MAX_LOG_COUNT). */
  const MAX_LOG_COUNT: nat := 50

  /** One stored audit entry (ClientConsentLogEntity). Its account and client
      are those of the log it belongs to. */
  datatype LogEntry = LogEntry(id: Uuid, timestamp: Timestamp, logType: string, messages: seq<string>)

  function Min(a: int, b: int): int {
    if a <= b then a else b
  }

  /** The effect of deleteAllByAccountIdAndClientRegistrationIdExceptLatestN on
      one pair's log: the latest n entries survive, in order. */
  function ExceptLatestN(log: seq<LogEntry>, n: nat): (r: seq<LogEntry>)
    ensures |r| == Min(|log|, n)
    ensures r == log[|log| - |r|..]
  {
    if |log| <= n then log else log[|log| - n..]
  }

  /** What one effective close does to the pair's log: trim to the latest
      MAX_LOG_COUNT - 1 entries unless the trim fails, then append the entry. */
  function TrimThenAppend(log: seq<LogEntry>, trimFails: bool, entry: LogEntry): (r: seq<LogEntry>)
    ensures trimFails ==> |r| == |log| + 1
    ensures !trimFails ==> |r| == Min(|log|, MAX_LOG_COUNT - 1) + 1 && |r| <= MAX_LOG_COUNT
    ensures r[|r| - 1] == entry
    ensures r[..|r| - 1] == log[|log| - (|r| - 1)..]
  {
    var kept := if trimFails then log else ExceptLatestN(log, MAX_LOG_COUNT - 1);
    assert (kept + [entry])[..|kept|] == kept;
    kept + [entry]
  }

  /** One effective close of a logging context on the pair. */
  datatype CloseStep = CloseStep(trimFails: bool, entry: LogEntry)

  /** The entries the closes append, in order. */
  function Entries(cs: seq<CloseStep>): (r: seq<LogEntry>)
    ensures |r| == |cs|
    decreases |cs|
  {
    if cs == [] then [] else Entries(cs[..|cs| - 1]) + [cs[|cs| - 1].entry]
  }

  /** The pair's log after the closes, applied in order. */
  function Replay(log: seq<LogEntry>, cs: seq<CloseStep>): seq<LogEntry>
    decreases |cs|
  {
    if cs == [] then log
    else TrimThenAppend(Replay(log, cs[..|cs| - 1]), cs[|cs| - 1].trimFails, cs[|cs| - 1].entry)
  }

  ghost predicate IsSuffix(a: seq<LogEntry>, b: seq<LogEntry>) {
    |a| <= |b| && a == b[|b| - |a|..]
  }

  lemma SuffixAppend(a: seq<LogEntry>, b: seq<LogEntry>, e: LogEntry)
    requires IsSuffix(a, b)
    ensures IsSuffix(a + [e], b + [e])
  {
    var k := |b| - |a|;
    assert (b + [e])[k..] == b[k..] + [e];
  }

  lemma SuffixTrans(a: seq<LogEntry>, b: seq<LogEntry>, c: seq<LogEntry>)
    requires IsSuffix(a, b) && IsSuffix(b, c)
    ensures IsSuffix(a, c)
  {
    assert c[|c| - |a|..] == c[|c| - |b|..][|b| - |a|..];
  }

  /** One close keeps the log a suffix of everything written. */
  lemma StepKeepsSuffix(p: seq<LogEntry>, written: seq<LogEntry>, trimFails: bool, e: LogEntry)
    requires IsSuffix(p, written)
    ensures IsSuffix(TrimThenAppend(p, trimFails, e), written + [e])
  {
    var q := TrimThenAppend(p, trimFails, e);
    var kept := q[..|q| - 1];
    assert q == kept + [e];
    SuffixTrans(kept, p, written);
    SuffixAppend(kept, written, e);
  }

  /** Whether or not the trims succeed, the closes never reorder or invent
      entries: the log is always a suffix of everything written to it. */
  lemma {:induction false} ReplayIsSuffix(log: seq<LogEntry>, cs: seq<CloseStep>)
    ensures IsSuffix(Replay(log, cs), log + Entries(cs))
    decreases |cs|
  {
    if cs == [] {
      assert log + Entries(cs) == log;
    } else {
      var init, c := cs[..|cs| - 1], cs[|cs| - 1];
      var written := log + Entries(init);
      ReplayIsSuffix(log, init);
      StepKeepsSuffix(Replay(log, init), written, c.trimFails, c.entry);
      assert log + Entries(cs) == written + [c.entry];
    }
  }

  /** Whether or not the trims succeed, the log never drops below
      MAX_LOG_COUNT entries once that many were written: together with
      ReplayIsSuffix, none of the MAX_LOG_COUNT most recent entries is lost. */
  lemma {:induction false} ReplayKeepsEnough(log: seq<LogEntry>, cs: seq<CloseStep>)
    ensures |Replay(log, cs)| >= Min(|log| + |cs|, MAX_LOG_COUNT)
    decreases |cs|
  {
    if cs != [] {
      ReplayKeepsEnough(log, cs[..|cs| - 1]);
    }
  }

  lemma LatestOfLatest(log: seq<LogEntry>, m: nat, n: nat)
    requires n <= m
    ensures ExceptLatestN(ExceptLatestN(log, m), n) == ExceptLatestN(log, n)
  {
  }

  lemma LatestAppend(log: seq<LogEntry>, n: nat, e: LogEntry)
    ensures ExceptLatestN(log, n) + [e] == ExceptLatestN(log + [e], n + 1)
  {
    if |log| > n {
      assert (log + [e])[|log| - n..] == log[|log| - n..] + [e];
    }
  }

  /** When every trim succeeds, the log holds exactly the MAX_LOG_COUNT most
      recent entries ever written for the pair. */
  lemma {:induction false} ReplayAllTrimmed(log: seq<LogEntry>, cs: seq<CloseStep>)
    requires cs != []
    requires forall i :: 0 <= i < |cs| ==> !cs[i].trimFails
    ensures Replay(log, cs) == ExceptLatestN(log + Entries(cs), MAX_LOG_COUNT)
    decreases |cs|
  {
    var init, c := cs[..|cs| - 1], cs[|cs| - 1];
    var written := log + Entries(init);
    assert log + Entries(cs) == written + [c.entry];
    if init == [] {
      assert written == log;
    } else {
      ReplayAllTrimmed(log, init);
      LatestOfLatest(written, MAX_LOG_COUNT, MAX_LOG_COUNT - 1);
    }
    LatestAppend(written, MAX_LOG_COUNT - 1, c.entry);
  }
}
