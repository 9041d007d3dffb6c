/**
 * The webhook log table written by `updateLogEntries` (webserver/pneuma/pneuma.go):
 * one row per `(log_id, webhook_id, guild_id)` holding an array of entries; the
 * first write for a key inserts `[entry]`, later ones append `entry`, where
 * `entry` is `fmt.Sprintln` of the operands.
 */
module LogTables {
  import opened GoStrings

  type LogKey = (string, string, string)

  /** One call of `updateLogEntries(logId, webhookId, guildId, ops...)`. */
  datatype LogCall = LogCall(logId: string, webhookId: string, guildId: string, ops: seq<string>)

  function Key(c: LogCall): LogKey {
    (c.logId, c.webhookId, c.guildId)
  }

  /** The entries stored under `k`; a missing row reads as none. */
  function Entries(m: map<LogKey, seq<string>>, k: LogKey): seq<string> {
    if k in m then m[k] else []
  }

  /** Insert-or-append of one entry. */
  function AppendEntry(m: map<LogKey, seq<string>>, k: LogKey, entry: string): (r: map<LogKey, seq<string>>)
    ensures k in r && r[k] == Entries(m, k) + [entry]
    ensures k !in m ==> r[k] == [entry]
    ensures forall k' :: k' in m ==> k' in r
  {
    if k in m then m[k := m[k] + [entry]] else m[k := [entry]]
  }

  /** Insert-or-append leaves every other key as it was. */
  lemma AppendEntryOtherKeys(m: map<LogKey, seq<string>>, k: LogKey, entry: string, k': LogKey)
    requires k' != k
    ensures k' in AppendEntry(m, k, entry) <==> k' in m
    ensures k' in m ==> AppendEntry(m, k, entry)[k'] == m[k']
  {
  }

  /** The table after a sequence of calls, in order. */
  function Replay(m: map<LogKey, seq<string>>, calls: seq<LogCall>): (r: map<LogKey, seq<string>>)
    ensures forall k :: k in m ==> k in r
    ensures calls != [] ==> Key(calls[|calls| - 1]) in r
    decreases |calls|
  {
    if calls == [] then m
    else
      var last := calls[|calls| - 1];
      AppendEntry(Replay(m, calls[..|calls| - 1]), Key(last), Sprintln(last.ops))
  }

  /** Every call leaves its key in the table. */
  lemma {:induction false} ReplayKeys(m: map<LogKey, seq<string>>, calls: seq<LogCall>)
    ensures forall i :: 0 <= i < |calls| ==> Key(calls[i]) in Replay(m, calls)
    decreases |calls|
  {
    if calls != [] {
      var init := calls[..|calls| - 1];
      ReplayKeys(m, init);
      forall i | 0 <= i < |init|
        ensures Key(calls[i]) in Replay(m, calls)
      {
        assert calls[i] == init[i];
      }
    }
  }

  /** The entries a sequence of calls contributes to key `k`, in call order. */
  function EntriesFor(calls: seq<LogCall>, k: LogKey): (es: seq<string>)
    ensures |es| <= |calls|
    decreases |calls|
  {
    if calls == [] then []
    else
      var last := calls[|calls| - 1];
      EntriesFor(calls[..|calls| - 1], k) + (if Key(last) == k then [Sprintln(last.ops)] else [])
  }

  lemma {:induction false} ReplaySnoc(m: map<LogKey, seq<string>>, calls: seq<LogCall>, c: LogCall)
    ensures Replay(m, calls + [c]) == AppendEntry(Replay(m, calls), Key(c), Sprintln(c.ops))
  {
    var cs := calls + [c];
    assert cs[|cs| - 1] == c;
    assert cs[..|cs| - 1] == calls;
  }

  lemma {:induction false} ReplayConcat(m: map<LogKey, seq<string>>, a: seq<LogCall>, b: seq<LogCall>)
    ensures Replay(m, a + b) == Replay(Replay(m, a), b)
    decreases |b|
  {
    if b == [] {
      assert a + b == a;
    } else {
      var init := b[..|b| - 1];
      var last := b[|b| - 1];
      assert a + b == (a + init) + [last];
      assert b == init + [last];
      ReplaySnoc(m, a + init, last);
      ReplaySnoc(Replay(m, a), init, last);
      ReplayConcat(m, a, init);
    }
  }

  lemma {:induction false} EntriesForSnoc(calls: seq<LogCall>, c: LogCall, k: LogKey)
    ensures EntriesFor(calls + [c], k) == EntriesFor(calls, k) + (if Key(c) == k then [Sprintln(c.ops)] else [])
  {
    var cs := calls + [c];
    assert cs[|cs| - 1] == c;
    assert cs[..|cs| - 1] == calls;
  }

  lemma {:induction false} EntriesForConcat(a: seq<LogCall>, b: seq<LogCall>, k: LogKey)
    ensures EntriesFor(a + b, k) == EntriesFor(a, k) + EntriesFor(b, k)
    decreases |b|
  {
    if b == [] {
      assert a + b == a;
    } else {
      var init := b[..|b| - 1];
      var last := b[|b| - 1];
      assert a + b == (a + init) + [last];
      assert b == init + [last];
      EntriesForSnoc(a + init, last, k);
      EntriesForSnoc(init, last, k);
      EntriesForConcat(a, init, k);
    }
  }

  /** The log only grows: each key keeps its entries and gains its calls' entries at the end, in call order. */
  lemma {:induction false} ReplayEntries(m: map<LogKey, seq<string>>, calls: seq<LogCall>, k: LogKey)
    ensures Entries(Replay(m, calls), k) == Entries(m, k) + EntriesFor(calls, k)
    decreases |calls|
  {
    if calls != [] {
      ReplayEntries(m, calls[..|calls| - 1], k);
    }
  }

  /** A key no call names keeps exactly what it had. */
  lemma {:induction false} ReplayOtherKeys(m: map<LogKey, seq<string>>, calls: seq<LogCall>, k: LogKey)
    requires forall i :: 0 <= i < |calls| ==> Key(calls[i]) != k
    ensures k in Replay(m, calls) <==> k in m
    ensures k in m ==> Replay(m, calls)[k] == m[k]
    decreases |calls|
  {
    if calls != [] {
      var last := calls[|calls| - 1];
      ReplayOtherKeys(m, calls[..|calls| - 1], k);
      AppendEntryOtherKeys(Replay(m, calls[..|calls| - 1]), Key(last), Sprintln(last.ops), k);
    }
  }

  class LogTable {
    var entries: map<LogKey, seq<string>>

    constructor ()
      ensures entries == map[]
    {
      entries := map[];
    }

    /** `updateLogEntries`: count the row, then insert `[entry]` or append `entry`. */
    method UpdateLogEntries(logId: string, webhookId: string, guildId: string, ops: seq<string>)
      modifies this
      ensures entries == AppendEntry(old(entries), (logId, webhookId, guildId), Sprintln(ops))
    {
      var key := (logId, webhookId, guildId);
      var entry := Sprintln(ops);
      var count := if key in entries then 1 else 0;
      if count == 0 {
        entries := entries[key := [entry]];
      } else {
        entries := entries[key := entries[key] + [entry]];
      }
    }
  }

  /** `updateLogEntries` for one call, given the calls made since the table held `m0`. */
  method Record(log: LogTable, c: LogCall, ghost m0: map<LogKey, seq<string>>, ghost past: seq<LogCall>)
    requires log.entries == Replay(m0, past)
    modifies log
    ensures log.entries == Replay(m0, past + [c])
  {
    ReplaySnoc(m0, past, c);
    log.UpdateLogEntries(c.logId, c.webhookId, c.guildId, c.ops);
  }
}
