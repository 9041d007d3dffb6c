/**
 * `HandleEvents` (webserver/pneuma/pneuma.go): log the event, check the event
 * modifiers, pick the channels (the override, or the channels configured for
 * the repository), render the message, cut its embeds to Discord's limits and
 * send it to every channel, with a plain-text notice where a send fails.
 *
 * The database, the renderer and Discord are inputs: the modifier query
 * result, the channel query result, the rendered message (or its error) and a
 * `deliver` function giving, per channel and message, the send error if any.
 * The log table is a `LogTable` object the method writes to.
 */
module Pneuma {
  import opened Wrappers
  import opened PgTypes
  import opened Discord
  import opened LogTables
  import opened EmbedLimits
  import LM = LogosModifiers
  import EventsCommon

  /** The string arguments of `HandleEvents`; `fullName` is `rw.Repo.FullName`. */
  datatype Invocation = Invocation(
    fullName: string,
    repoId: string,
    logId: string,
    header: string,
    webhookId: string,
    guildId: string)

  /** One `ChannelMessageSendComplex` call. */
  datatype Send = Send(channelId: string, message: MessageSend)

  /** The log writes and sends of a run, in order. */
  datatype Trace = Trace(logs: seq<LogCall>, sends: seq<Send>)

  /** The outcome of sending a message to a channel: the error, if any. */
  type Deliverer = (string, MessageSend) -> Option<string>

  type ModifierQuery = Result<seq<Scan<LM.ModifierRow>>, string>

  type ChannelQuery = Result<seq<Scan<string>>, string>

  /** A log write under the run's own key. */
  function Note(inv: Invocation, ops: seq<string>): (c: LogCall)
    ensures Key(c) == (inv.logId, inv.webhookId, inv.guildId) && c.ops == ops
  {
    LogCall(inv.logId, inv.webhookId, inv.guildId, ops)
  }

  function ProcessingNote(inv: Invocation): LogCall {
    Note(inv, ["Processing event: " + inv.header, "repoName=" + inv.fullName,
               "webhookID=" + inv.webhookId, "event=" + inv.header, "logId=" + inv.logId])
  }

  /** The channel ids that scanned, in row order. */
  function ScannedChannels(scans: seq<Scan<string>>): (ids: seq<string>)
    ensures |ids| <= |scans|
    decreases |scans|
  {
    if scans == [] then []
    else ScannedChannels(scans[..|scans| - 1]) + (if scans[|scans| - 1].Scanned? then [scans[|scans| - 1].row] else [])
  }

  /** Every collected id is a row that scanned; when every row scanned, the ids are all the rows. */
  lemma {:induction false} ScannedChannelsSound(scans: seq<Scan<string>>)
    ensures forall i :: 0 <= i < |ScannedChannels(scans)| ==> Scanned(ScannedChannels(scans)[i]) in scans
    ensures (forall i :: 0 <= i < |scans| ==> scans[i].Scanned?) ==> ScannedChannels(scans) == Rows(scans)
    decreases |scans|
  {
    if scans != [] {
      var init := scans[..|scans| - 1];
      ScannedChannelsSound(init);
      var ids := ScannedChannels(scans);
      var prev := ScannedChannels(init);
      assert forall i :: 0 <= i < |prev| ==> Scanned(prev[i]) in init;
      forall i | 0 <= i < |ids|
        ensures Scanned(ids[i]) in scans
      {
        if i < |prev| {
          assert ids[i] == prev[i];
          assert Scanned(prev[i]) in init;
          var j :| 0 <= j < |init| && init[j] == Scanned(prev[i]);
          assert scans[j] == init[j];
        } else {
          assert scans[|scans| - 1] == Scanned(ids[i]);
          assert scans[|scans| - 1] in scans;
        }
      }
      if forall i :: 0 <= i < |scans| ==> scans[i].Scanned? {
        RowsSnoc(scans, |scans| - 1);
        assert scans[..|scans|] == scans;
      }
    }
  }

  /** The call at line 180: message and error land in the webhook and guild slots, with no operands. */
  function ScanErrorNotes(inv: Invocation, aclFail: string, scans: seq<Scan<string>>): (notes: seq<LogCall>)
    ensures |notes| <= |scans|
    ensures forall i :: 0 <= i < |notes| ==> notes[i].ops == [] && notes[i].logId == inv.logId
    decreases |scans|
  {
    if scans == [] then []
    else
      var last := scans[|scans| - 1];
      ScanErrorNotes(inv, aclFail, scans[..|scans| - 1])
        + (if last.ScanFailed? then [LogCall(inv.logId, "Channel id scan error: acl=" + aclFail, "error=" + last.err, [])] else [])
  }

  datatype Selection = Selected(channels: seq<string>, notes: seq<LogCall>) | FetchFailed(notes: seq<LogCall>)

  /** Lines 156-187: the override alone, or the configured channels. */
  function SelectChannels(inv: Invocation, check: LM.EventCheck, channelQuery: ChannelQuery): (s: Selection)
    ensures check.channelOverride != "" ==> s == Selected([check.channelOverride], [])
  {
    if check.channelOverride != "" then Selected([check.channelOverride], [])
    else
      match channelQuery
      case Failure(err) =>
        FetchFailed([LogCall(inv.logId, "Channel id fetch error: acl=" + check.aclFail, "error=" + err, [])])
      case Success(scans) =>
        Selected(ScannedChannels(scans), ScanErrorNotes(inv, check.aclFail, scans))
  }

  /** Every embed mapped by `f`, in order. */
  function MapEmbeds(f: Embed -> Embed, es: seq<Embed>): (rs: seq<Embed>)
    ensures |rs| == |es|
    ensures forall i :: 0 <= i < |es| ==> rs[i] == f(es[i])
  {
    seq(|es|, i requires 0 <= i < |es| => f(es[i]))
  }

  /** Mapping one more embed appends its image. */
  lemma MapEmbedsSnoc(f: Embed -> Embed, es: seq<Embed>)
    requires es != []
    ensures MapEmbeds(f, es) == MapEmbeds(f, es[..|es| - 1]) + [f(es[|es| - 1])]
  {
    var init := es[..|es| - 1];
    assert forall i :: 0 <= i < |init| ==> init[i] == es[i];
  }

  function NormalizeAll(es: seq<Embed>): (rs: seq<Embed>)
    ensures |rs| == |es|
    ensures forall i :: 0 <= i < |es| ==> rs[i] == Normalize(es[i])
  {
    MapEmbeds(Normalize, es)
  }

  /** One more embed adds its normalised form at the end. */
  lemma NormalizeAllSnoc(es: seq<Embed>)
    requires es != []
    ensures NormalizeAll(es) == NormalizeAll(es[..|es| - 1]) + [Normalize(es[|es| - 1])]
  {
    MapEmbedsSnoc(Normalize, es);
  }

  /** Lines 236-238, with the corrected limiter: each embed replaced by its limited form, nothing else changed. */
  function Limited(m: MessageSend): (r: MessageSend)
    ensures r.content == m.content && |r.embeds| == |m.embeds|
    ensures forall i :: 0 <= i < |r.embeds| ==> r.embeds[i] == Normalize(m.embeds[i])
  {
    MessageSend(m.content, NormalizeAll(m.embeds))
  }

  /**
   * Lines 236-238 with `_sliceChars` as written: every embed limited in turn, or
   * `None` at the first embed on which the slice panics. The panic is raised in
   * the goroutine Ontos starts and nothing recovers it, so the process exits
   * before any channel is sent to.
   */
  function LimitAllAsWritten(es: seq<Embed>): (r: Option<seq<Embed>>)
    ensures r.Some? <==> forall i :: 0 <= i < |es| ==> LimitEmbed(es[i], AsWritten).Sliced?
    decreases |es|
  {
    if es == [] then Some([])
    else
      var init := es[..|es| - 1];
      var last := es[|es| - 1];
      assert forall i :: 0 <= i < |init| ==> init[i] == es[i];
      match LimitAllAsWritten(init)
      case None => None
      case Some(rs) =>
        var l := LimitEmbed(last, AsWritten);
        if l.Panicked? then None else Some(rs + [l.value])
  }

  /** Where the as-written limiter completes, it gives what the corrected one gives. */
  lemma {:induction false} LimitAllAsWrittenAgrees(es: seq<Embed>)
    ensures LimitAllAsWritten(es).Some? ==> LimitAllAsWritten(es).value == NormalizeAll(es)
    decreases |es|
  {
    if es != [] && LimitAllAsWritten(es).Some? {
      var init := es[..|es| - 1];
      var last := es[|es| - 1];
      LimitAllAsWrittenAgrees(init);
      AsWrittenAgreesWhenComplete(last);
      NormalizeAllSnoc(es);
    }
  }

  /** The message as the source limits it: where it is limited at all, it is the corrected `Limited(m)`. */
  function LimitedAsWritten(m: MessageSend): (r: Option<MessageSend>)
    ensures r.Some? <==> forall i :: 0 <= i < |m.embeds| ==> LimitEmbed(m.embeds[i], AsWritten).Sliced?
    ensures r.Some? ==> r.value == Limited(m)
  {
    LimitAllAsWrittenAgrees(m.embeds);
    match LimitAllAsWritten(m.embeds)
    case None => None
    case Some(es) => Some(MessageSend(m.content, es))
  }

  /** A message carrying an embed titled "abc" is never limited as written: the run ends before the first send. */
  lemma ShortTitleStopsRun(content: string, rest: seq<Embed>)
    ensures LimitedAsWritten(MessageSend(content, [Embed("abc", "", "", 0, "", [], None, None)] + rest)).None?
  {
    var m := MessageSend(content, [Embed("abc", "", "", 0, "", [], None, None)] + rest);
    ShortTitlePanics();
    assert !LimitEmbed(m.embeds[0], AsWritten).Sliced?;
  }

  /** Every embed of a limited message is a bounded truncation of the original. */
  lemma LimitedSound(m: MessageSend)
    ensures forall i :: 0 <= i < |m.embeds| ==> Bounded(Limited(m).embeds[i]) && TruncationOf(Limited(m).embeds[i], m.embeds[i])
  {
    forall i | 0 <= i < |m.embeds|
      ensures Bounded(Limited(m).embeds[i]) && TruncationOf(Limited(m).embeds[i], m.embeds[i])
    {
      NormalizeSound(m.embeds[i]);
    }
  }

  /** The plain-text notice sent to a channel where the send failed (line 246). */
  function Notice(header: string, channelId: string, err: string): (m: MessageSend)
    ensures m.embeds == [] && m.content != ""
  {
    PlainText("Could not send event " + header + " to channel: <#" + channelId + ">:" + err)
  }

  /** The log write of line 242, before each send. */
  function SendingNote(inv: Invocation, channelId: string): LogCall {
    Note(inv, ["Sending event to channel: channelId=" + channelId])
  }

  /** The failure log of line 249, which puts its message and error in the webhook and guild slots. */
  function SendFailedNote(inv: Invocation, channelId: string, err: string): LogCall {
    LogCall(inv.logId, "Could not send event " + inv.header + " to channel: channelId=" + channelId, "err=" + err, [])
  }

  /** One iteration of the fan-out loop. */
  function Attempt(inv: Invocation, channelId: string, msg: MessageSend, deliver: Deliverer): (t: Trace)
    ensures 1 <= |t.sends| <= 2 && |t.logs| == |t.sends|
    ensures t.sends[0] == Send(channelId, msg) && t.logs[0] == SendingNote(inv, channelId)
    ensures |t.sends| == 2 <==> deliver(channelId, msg).Some?
    ensures |t.sends| == 2 ==> t.sends[1].message.embeds == []
    ensures forall i :: 0 <= i < |t.sends| ==> t.sends[i].channelId == channelId
  {
    match deliver(channelId, msg)
    case None => Trace([SendingNote(inv, channelId)], [Send(channelId, msg)])
    case Some(err) =>
      Trace([SendingNote(inv, channelId), SendFailedNote(inv, channelId, err)],
            [Send(channelId, msg), Send(channelId, Notice(inv.header, channelId, err))])
  }

  function Then(a: Trace, b: Trace): Trace {
    Trace(a.logs + b.logs, a.sends + b.sends)
  }

  /** Lines 240-251: every channel in order. */
  function FanOut(inv: Invocation, channels: seq<string>, msg: MessageSend, deliver: Deliverer): (t: Trace)
    ensures |channels| <= |t.sends| <= 2 * |channels| && |t.logs| == |t.sends|
    ensures forall i :: 0 <= i < |t.sends| ==> t.sends[i].channelId in channels
    ensures forall i :: 0 <= i < |t.sends| ==> t.sends[i].message == msg || t.sends[i].message.embeds == []
    decreases |channels|
  {
    if channels == [] then Trace([], [])
    else
      var init := channels[..|channels| - 1];
      var prev := FanOut(inv, init, msg, deliver);
      var a := Attempt(inv, channels[|channels| - 1], msg, deliver);
      assert forall c :: c in init ==> c in channels;
      Then(prev, a)
  }

  function RenderNote(inv: Invocation): LogCall {
    if EventsCommon.Supported(inv.header) then Note(inv, ["SUCCESS: This event can be personalized"])
    else Note(inv, ["WARNING: This event cannot be personalized, will try propogating to configured webhooks (if supported)?"])
  }

  function RenderErrorNote(inv: Invocation, err: string): LogCall {
    if EventsCommon.Supported(inv.header) then Note(inv, ["Error processing event:", err])
    else Note(inv, ["Error unmarshalling event: " + err])
  }

  /** Lines 189-251 once the channels are known: stop if there are none, else render, limit and fan out. */
  function Dispatch(inv: Invocation, channels: seq<string>, render: Result<MessageSend, string>, deliver: Deliverer): (t: Trace)
    ensures channels == [] ==> t == Trace([], [])
    ensures channels != [] ==> |t.logs| >= 1 && t.logs[0] == RenderNote(inv)
    ensures render.Failure? ==> t.sends == []
    ensures render.Success? ==> |channels| <= |t.sends| <= 2 * |channels|
    ensures forall i :: 0 <= i < |t.sends| ==> t.sends[i].channelId in channels
    ensures forall i :: 0 <= i < |t.sends| ==>
              (render.Success? && t.sends[i].message == Limited(render.value)) || t.sends[i].message.embeds == []
  {
    if channels == [] then Trace([], [])
    else
      match render
      case Failure(err) => Trace([RenderNote(inv), RenderErrorNote(inv, err)], [])
      case Success(msg) => Then(Trace([RenderNote(inv)], []), FanOut(inv, channels, Limited(msg), deliver))
  }

  /**
   * The whole run. `render` is what the selected renderer produced: the
   * formatter of `SupportedEvents` for the header, or else the generic embed
   * built from the decoded JSON body (its decode error on failure).
   */
  function Handle(inv: Invocation, modQuery: ModifierQuery, matches: LM.Matcher, channelQuery: ChannelQuery,
                  render: Result<MessageSend, string>, deliver: Deliverer): (t: Trace)
    ensures |t.logs| >= 1 && t.logs[0] == ProcessingNote(inv)
    ensures t.sends != [] ==> && render.Success? && LM.Fetched(modQuery, inv.repoId).Success?
                              && LM.Evaluate(LM.Fetched(modQuery, inv.repoId).value, inv.header, matches).aclFail == ""
    ensures forall i :: 0 <= i < |t.sends| ==>
              (render.Success? && t.sends[i].message == Limited(render.value)) || t.sends[i].message.embeds == []
  {
    var start := [ProcessingNote(inv)];
    match LM.Fetched(modQuery, inv.repoId)
    case Failure(err) => Trace(start + [Note(inv, ["Error checking event modifiers: " + err])], [])
    case Success(mods) =>
      var check := LM.Evaluate(mods, inv.header, matches);
      if check.aclFail != "" then Trace(start + [Note(inv, ["ACL Fail: acl=" + check.aclFail])], [])
      else
        match SelectChannels(inv, check, channelQuery)
        case FetchFailed(notes) => Trace(start + notes, [])
        case Selected(channels, notes) => Then(Trace(start + notes, []), Dispatch(inv, channels, render, deliver))
  }

  // ---------------------------------------------------------------------------
  // The imperative run
  // ---------------------------------------------------------------------------

  /** The row loop of lines 174-186. */
  method CollectChannels(log: LogTable, inv: Invocation, aclFail: string, scans: seq<Scan<string>>)
    returns (channelIds: seq<string>)
    modifies log
    ensures channelIds == ScannedChannels(scans)
    ensures log.entries == Replay(old(log.entries), ScanErrorNotes(inv, aclFail, scans))
  {
    ghost var m0 := log.entries;
    ghost var calls: seq<LogCall> := [];
    channelIds := [];
    var i := 0;
    while i < |scans|
      invariant 0 <= i <= |scans|
      invariant channelIds == ScannedChannels(scans[..i])
      invariant calls == ScanErrorNotes(inv, aclFail, scans[..i])
      invariant log.entries == Replay(m0, calls)
    {
      assert scans[..i + 1][..i] == scans[..i];
      if scans[i].ScanFailed? {
        var failed := LogCall(inv.logId, "Channel id scan error: acl=" + aclFail, "error=" + scans[i].err, []);
        Record(log, failed, m0, calls);
        calls := calls + [failed];
        i := i + 1;
        continue;
      }
      assert calls + [] == calls;
      channelIds := channelIds + [scans[i].row];
      i := i + 1;
    }
    assert scans[..i] == scans;
  }

  /** Lines 236-238: each embed replaced by its limited form. */
  method LimitMessage(msg: MessageSend) returns (r: MessageSend)
    ensures r == Limited(msg)
  {
    var embeds := [];
    for i := 0 to |msg.embeds|
      invariant embeds == NormalizeAll(msg.embeds[..i])
    {
      assert msg.embeds[..i + 1][..i] == msg.embeds[..i];
      NormalizeAllSnoc(msg.embeds[..i + 1]);
      embeds := embeds + [Normalize(msg.embeds[i])];
    }
    assert msg.embeds[..|msg.embeds|] == msg.embeds;
    r := MessageSend(msg.content, embeds);
  }

  /** The log writes of one attempt, as the loop body makes them. */
  lemma AttemptLogs(inv: Invocation, channelId: string, msg: MessageSend, deliver: Deliverer, past: seq<LogCall>)
    ensures var a := Attempt(inv, channelId, msg, deliver);
            && a.sends[0] == Send(channelId, msg)
            && (deliver(channelId, msg).None? ==> past + [SendingNote(inv, channelId)] == past + a.logs)
            && (deliver(channelId, msg).Some? ==>
                  past + [SendingNote(inv, channelId)] + [SendFailedNote(inv, channelId, deliver(channelId, msg).value)]
                  == past + a.logs)
  {
  }

  /** One iteration of the fan-out loop (lines 241-250). */
  method AttemptChannel(log: LogTable, inv: Invocation, channelId: string, msg: MessageSend, deliver: Deliverer,
                        ghost m0: map<LogKey, seq<string>>, ghost past: seq<LogCall>)
    returns (sent: seq<Send>)
    requires log.entries == Replay(m0, past)
    modifies log
    ensures sent == Attempt(inv, channelId, msg, deliver).sends
    ensures log.entries == Replay(m0, past + Attempt(inv, channelId, msg, deliver).logs)
  {
    AttemptLogs(inv, channelId, msg, deliver, past);
    var sending := SendingNote(inv, channelId);
    Record(log, sending, m0, past);
    sent := [Send(channelId, msg)];
    var err := deliver(channelId, msg);
    if err.Some? {
      sent := sent + [Send(channelId, Notice(inv.header, channelId, err.value))];
      var failed := SendFailedNote(inv, channelId, err.value);
      Record(log, failed, m0, past + [sending]);
    }
  }

  /** The fan-out loop of lines 240-251. */
  method Deliver(log: LogTable, inv: Invocation, channelIds: seq<string>, msg: MessageSend, deliver: Deliverer)
    returns (sends: seq<Send>)
    modifies log
    ensures sends == FanOut(inv, channelIds, msg, deliver).sends
    ensures log.entries == Replay(old(log.entries), FanOut(inv, channelIds, msg, deliver).logs)
  {
    ghost var m0 := log.entries;
    ghost var calls: seq<LogCall> := [];
    sends := [];
    for i := 0 to |channelIds|
      invariant FanOut(inv, channelIds[..i], msg, deliver) == Trace(calls, sends)
      invariant log.entries == Replay(m0, calls)
    {
      assert channelIds[..i + 1][..i] == channelIds[..i];
      ghost var attempt := Attempt(inv, channelIds[i], msg, deliver);
      assert FanOut(inv, channelIds[..i + 1], msg, deliver) == Then(Trace(calls, sends), attempt);
      var sent := AttemptChannel(log, inv, channelIds[i], msg, deliver, m0, calls);
      sends := sends + sent;
      calls := calls + attempt.logs;
    }
    assert channelIds[..|channelIds|] == channelIds;
  }

  /** Lines 156-187: the channels to send to, or `ok == false` where the channel query failed. */
  method ChooseChannels(log: LogTable, inv: Invocation, check: LM.EventCheck, channelQuery: ChannelQuery,
                        ghost m0: map<LogKey, seq<string>>, ghost past: seq<LogCall>)
    returns (ok: bool, channelIds: seq<string>)
    requires log.entries == Replay(m0, past)
    modifies log
    ensures ok <==> SelectChannels(inv, check, channelQuery).Selected?
    ensures ok ==> channelIds == SelectChannels(inv, check, channelQuery).channels
    ensures log.entries == Replay(m0, past + SelectChannels(inv, check, channelQuery).notes)
  {
    if check.channelOverride != "" {
      assert past + [] == past;
      return true, [check.channelOverride];
    }
    match channelQuery
    case Failure(err) =>
      Record(log, LogCall(inv.logId, "Channel id fetch error: acl=" + check.aclFail, "error=" + err, []), m0, past);
      return false, [];
    case Success(scans) =>
      channelIds := CollectChannels(log, inv, check.aclFail, scans);
      ReplayConcat(m0, past, ScanErrorNotes(inv, check.aclFail, scans));
      return true, channelIds;
  }

  /** Lines 189-251: the early return, the render and its log lines, the limits and the fan-out. */
  method RenderAndSend(log: LogTable, inv: Invocation, channelIds: seq<string>, render: Result<MessageSend, string>,
                       deliver: Deliverer, ghost m0: map<LogKey, seq<string>>, ghost past: seq<LogCall>)
    returns (sends: seq<Send>)
    requires log.entries == Replay(m0, past)
    modifies log
    ensures sends == Dispatch(inv, channelIds, render, deliver).sends
    ensures log.entries == Replay(m0, past + Dispatch(inv, channelIds, render, deliver).logs)
  {
    if |channelIds| == 0 {
      assert past + [] == past;
      return [];
    }
    DispatchLogs(inv, channelIds, render, deliver, past);
    Record(log, RenderNote(inv), m0, past);
    if render.Failure? {
      Record(log, RenderErrorNote(inv, render.error), m0, past + [RenderNote(inv)]);
      return [];
    }
    sends := LimitAndDeliver(log, inv, channelIds, render.value, deliver, m0, past + [RenderNote(inv)]);
  }

  /** Lines 236-251: limit the embeds, then fan out. */
  method LimitAndDeliver(log: LogTable, inv: Invocation, channelIds: seq<string>, msg: MessageSend,
                         deliver: Deliverer, ghost m0: map<LogKey, seq<string>>, ghost past: seq<LogCall>)
    returns (sends: seq<Send>)
    requires log.entries == Replay(m0, past)
    modifies log
    ensures sends == FanOut(inv, channelIds, Limited(msg), deliver).sends
    ensures log.entries == Replay(m0, past + FanOut(inv, channelIds, Limited(msg), deliver).logs)
  {
    var messageSend := LimitMessage(msg);
    sends := Deliver(log, inv, channelIds, messageSend, deliver);
    ReplayConcat(m0, past, FanOut(inv, channelIds, messageSend, deliver).logs);
  }

  /** Dispatch over at least one channel: the render note, then the render error or the fan-out of the limited message. */
  lemma DispatchLogs(inv: Invocation, channels: seq<string>, render: Result<MessageSend, string>, deliver: Deliverer,
                     past: seq<LogCall>)
    requires channels != []
    ensures var t := Dispatch(inv, channels, render, deliver);
            && (render.Failure? ==>
                  && t.sends == []
                  && past + [RenderNote(inv)] + [RenderErrorNote(inv, render.error)] == past + t.logs)
            && (render.Success? ==>
                  var f := FanOut(inv, channels, Limited(render.value), deliver);
                  && t.sends == f.sends
                  && past + [RenderNote(inv)] + f.logs == past + t.logs)
  {
    var t := Dispatch(inv, channels, render, deliver);
    match render
    case Failure(err) =>
      assert t.logs == [RenderNote(inv), RenderErrorNote(inv, err)];
      SnocTwice(past, RenderNote(inv), RenderErrorNote(inv, err));
    case Success(msg) =>
      var f := FanOut(inv, channels, Limited(msg), deliver);
      assert t == Trace([RenderNote(inv)] + f.logs, [] + f.sends);
      assert [] + f.sends == f.sends;
      SnocThenAppend(past, RenderNote(inv), f.logs);
  }

  lemma SnocTwice<T>(past: seq<T>, a: T, b: T)
    ensures past + [a] + [b] == past + [a, b]
  {
    assert [a] + [b] == [a, b];
  }

  lemma SnocThenAppend<T>(past: seq<T>, a: T, rest: seq<T>)
    ensures past + [a] + rest == past + ([a] + rest)
  {
  }

  /**
   * `HandleEvents(bodyBytes, rw, repoId, logId, header, webhookId, guildId)`.
   * The `modres == nil` branch of lines 144-148 cannot be taken: the check is
   * always present when the modifiers could be read.
   */
  method HandleEvents(log: LogTable, inv: Invocation, modQuery: ModifierQuery, matches: LM.Matcher,
                      channelQuery: ChannelQuery, render: Result<MessageSend, string>, deliver: Deliverer)
    returns (sends: seq<Send>)
    modifies log
    ensures sends == Handle(inv, modQuery, matches, channelQuery, render, deliver).sends
    ensures log.entries == Replay(old(log.entries), Handle(inv, modQuery, matches, channelQuery, render, deliver).logs)
  {
    ghost var m0 := log.entries;
    ghost var start := [ProcessingNote(inv)];
    Record(log, ProcessingNote(inv), m0, []);
    assert [] + start == start;

    var modres := LM.CheckEventAllowed(modQuery, inv.repoId, inv.header, matches);
    if modres.Failure? {
      Record(log, Note(inv, ["Error checking event modifiers: " + modres.error]), m0, start);
      return [];
    }
    var check := modres.value;
    if check.aclFail != "" {
      Record(log, Note(inv, ["ACL Fail: acl=" + check.aclFail]), m0, start);
      return [];
    }

    var ok, channelIds := ChooseChannels(log, inv, check, channelQuery, m0, start);
    ghost var notes := SelectChannels(inv, check, channelQuery).notes;
    if !ok {
      return [];
    }
    sends := RenderAndSend(log, inv, channelIds, render, deliver, m0, start + notes);
    assert start + notes + Dispatch(inv, channelIds, render, deliver).logs
        == (start + notes) + Dispatch(inv, channelIds, render, deliver).logs;
    assert [] + sends == sends;
  }

  // ---------------------------------------------------------------------------
  // What a run does
  // ---------------------------------------------------------------------------

  /** A denied event (modifier fetch error, or an ACL failure) is logged twice under the run's key and never looked up, rendered or sent. */
  lemma DeniedEventIsNotSent(inv: Invocation, modQuery: ModifierQuery, matches: LM.Matcher,
                             q1: ChannelQuery, r1: Result<MessageSend, string>, d1: Deliverer,
                             q2: ChannelQuery, r2: Result<MessageSend, string>, d2: Deliverer)
    requires LM.Fetched(modQuery, inv.repoId).Failure?
          || LM.Evaluate(LM.Fetched(modQuery, inv.repoId).value, inv.header, matches).aclFail != ""
    ensures var t := Handle(inv, modQuery, matches, q1, r1, d1);
            && t.sends == []
            && |t.logs| == 2 && t.logs[0] == ProcessingNote(inv)
            && Key(t.logs[1]) == (inv.logId, inv.webhookId, inv.guildId)
            && t == Handle(inv, modQuery, matches, q2, r2, d2)
  {
  }

  /** With an override, the run is the processing note, then the render note and one attempt on that channel. */
  lemma HandleOverride(inv: Invocation, modQuery: ModifierQuery, matches: LM.Matcher,
                       q: ChannelQuery, msg: MessageSend, deliver: Deliverer)
    requires LM.Fetched(modQuery, inv.repoId).Success?
    requires var check := LM.Evaluate(LM.Fetched(modQuery, inv.repoId).value, inv.header, matches);
             check.aclFail == "" && check.channelOverride != ""
    ensures var check := LM.Evaluate(LM.Fetched(modQuery, inv.repoId).value, inv.header, matches);
            Handle(inv, modQuery, matches, q, Success(msg), deliver)
            == Then(Trace([ProcessingNote(inv)], []), Then(Trace([RenderNote(inv)], []), Attempt(inv, check.channelOverride, Limited(msg), deliver)))
    ensures var check := LM.Evaluate(LM.Fetched(modQuery, inv.repoId).value, inv.header, matches);
            Handle(inv, modQuery, matches, q, Success(msg), deliver).sends == Attempt(inv, check.channelOverride, Limited(msg), deliver).sends
  {
    var check := LM.Evaluate(LM.Fetched(modQuery, inv.repoId).value, inv.header, matches);
    assert SelectChannels(inv, check, q) == Selected([check.channelOverride], []);
    FanOutSingle(inv, check.channelOverride, Limited(msg), deliver);
    assert [ProcessingNote(inv)] + [] == [ProcessingNote(inv)];
  }

  /** With an override, the channel table is never read and the message goes to that channel alone. */
  lemma OverrideIsTheOnlyChannel(inv: Invocation, modQuery: ModifierQuery, matches: LM.Matcher,
                                 q1: ChannelQuery, q2: ChannelQuery, msg: MessageSend, deliver: Deliverer)
    requires LM.Fetched(modQuery, inv.repoId).Success?
    requires var check := LM.Evaluate(LM.Fetched(modQuery, inv.repoId).value, inv.header, matches);
             check.aclFail == "" && check.channelOverride != ""
    ensures var check := LM.Evaluate(LM.Fetched(modQuery, inv.repoId).value, inv.header, matches);
            var t := Handle(inv, modQuery, matches, q1, Success(msg), deliver);
            && 1 <= |t.sends| <= 2
            && t.sends[0] == Send(check.channelOverride, Limited(msg))
            && (forall i :: 0 <= i < |t.sends| ==> t.sends[i].channelId == check.channelOverride)
            && t == Handle(inv, modQuery, matches, q2, Success(msg), deliver)
  {
    var check := LM.Evaluate(LM.Fetched(modQuery, inv.repoId).value, inv.header, matches);
    HandleOverride(inv, modQuery, matches, q1, msg, deliver);
    HandleOverride(inv, modQuery, matches, q2, msg, deliver);
  }

  /** No channel to send to: the run stops before rendering, so the renderer's result and Discord play no part. */
  lemma NoChannelsNoRender(inv: Invocation, modQuery: ModifierQuery, matches: LM.Matcher, channelQuery: ChannelQuery,
                           r1: Result<MessageSend, string>, d1: Deliverer, r2: Result<MessageSend, string>, d2: Deliverer)
    requires LM.Fetched(modQuery, inv.repoId).Success?
    requires var check := LM.Evaluate(LM.Fetched(modQuery, inv.repoId).value, inv.header, matches);
             check.aclFail == "" && check.channelOverride == ""
    requires channelQuery.Success? && ScannedChannels(channelQuery.value) == []
    ensures Handle(inv, modQuery, matches, channelQuery, r1, d1).sends == []
    ensures Handle(inv, modQuery, matches, channelQuery, r1, d1) == Handle(inv, modQuery, matches, channelQuery, r2, d2)
  {
  }

  lemma FanOutSingle(inv: Invocation, c: string, msg: MessageSend, deliver: Deliverer)
    ensures FanOut(inv, [c], msg, deliver) == Attempt(inv, c, msg, deliver)
  {
    assert [c][..0] == [];
    var a := Attempt(inv, c, msg, deliver);
    assert [] + a.logs == a.logs && [] + a.sends == a.sends;
  }

  function CountFailures(channels: seq<string>, msg: MessageSend, deliver: Deliverer): nat
    decreases |channels|
  {
    if channels == [] then 0
    else CountFailures(channels[..|channels| - 1], msg, deliver) + (if deliver(channels[|channels| - 1], msg).Some? then 1 else 0)
  }

  /** The channels of the sends that carry `msg`, in order. */
  function Targets(sends: seq<Send>, msg: MessageSend): seq<string>
    decreases |sends|
  {
    if sends == [] then []
    else Targets(sends[..|sends| - 1], msg) + (if sends[|sends| - 1].message == msg then [sends[|sends| - 1].channelId] else [])
  }

  lemma {:induction false} TargetsConcat(a: seq<Send>, b: seq<Send>, msg: MessageSend)
    ensures Targets(a + b, msg) == Targets(a, msg) + Targets(b, msg)
    decreases |b|
  {
    if b == [] {
      assert a + b == a;
    } else {
      assert (a + b)[..|a + b| - 1] == a + b[..|b| - 1];
      TargetsConcat(a, b[..|b| - 1], msg);
    }
  }

  /**
   * A send the fan-out over `channels` may produce: `msg` itself, or the
   * notice of the error Discord returned for that channel.
   */
  predicate Sanctioned(inv: Invocation, channels: seq<string>, msg: MessageSend, deliver: Deliverer, s: Send) {
    && s.channelId in channels
    && (s.message == msg
        || (deliver(s.channelId, msg).Some? && s.message == Notice(inv.header, s.channelId, deliver(s.channelId, msg).value)))
  }

  predicate AllSanctioned(inv: Invocation, channels: seq<string>, msg: MessageSend, deliver: Deliverer, sends: seq<Send>) {
    forall i :: 0 <= i < |sends| ==> Sanctioned(inv, channels, msg, deliver, sends[i])
  }

  /** One attempt sends `msg` once, and a notice after it exactly when the send failed. */
  lemma AttemptSends(inv: Invocation, c: string, msg: MessageSend, deliver: Deliverer)
    requires msg.embeds != []
    ensures var a := Attempt(inv, c, msg, deliver);
            && Targets(a.sends, msg) == [c]
            && |a.sends| == 1 + (if deliver(c, msg).Some? then 1 else 0)
            && forall i :: 0 <= i < |a.sends| ==> Sanctioned(inv, [c], msg, deliver, a.sends[i])
  {
    var a := Attempt(inv, c, msg, deliver);
    if deliver(c, msg).Some? {
      assert a.sends[1].message != msg;
      assert a.sends[..1] == [Send(c, msg)] && a.sends[..1][..0] == [];
      assert Targets(a.sends[..1], msg) == Targets([], msg) + [c];
    } else {
      assert a.sends == [Send(c, msg)] && a.sends[..0] == [];
      assert Targets(a.sends, msg) == Targets([], msg) + [c];
    }
  }

  /**
   * Every channel is attempted once, in order, whatever failed before it, and
   * each failure adds exactly one notice.
   */
  lemma {:induction false} FanOutAttemptsEveryChannel(inv: Invocation, channels: seq<string>, msg: MessageSend, deliver: Deliverer)
    requires msg.embeds != []
    ensures var t := FanOut(inv, channels, msg, deliver);
            && Targets(t.sends, msg) == channels
            && |t.sends| == |channels| + CountFailures(channels, msg, deliver)
    decreases |channels|
  {
    if channels != [] {
      var init := channels[..|channels| - 1];
      var c := channels[|channels| - 1];
      FanOutAttemptsEveryChannel(inv, init, msg, deliver);
      var prev := FanOut(inv, init, msg, deliver);
      var a := Attempt(inv, c, msg, deliver);
      TargetsConcat(prev.sends, a.sends, msg);
      AttemptSends(inv, c, msg, deliver);
      assert FanOut(inv, channels, msg, deliver).sends == prev.sends + a.sends;
      assert CountFailures(channels, msg, deliver) == CountFailures(init, msg, deliver) + (if deliver(c, msg).Some? then 1 else 0);
    }
  }

  /** Nothing is sent but `msg` and the notices of its failures, and only to the given channels. */
  lemma {:induction false} FanOutSendsOnlySanctioned(inv: Invocation, channels: seq<string>, msg: MessageSend, deliver: Deliverer)
    requires msg.embeds != []
    ensures AllSanctioned(inv, channels, msg, deliver, FanOut(inv, channels, msg, deliver).sends)
    decreases |channels|
  {
    if channels != [] {
      var init := channels[..|channels| - 1];
      var c := channels[|channels| - 1];
      FanOutSendsOnlySanctioned(inv, init, msg, deliver);
      var prev := FanOut(inv, init, msg, deliver);
      var a := Attempt(inv, c, msg, deliver);
      AttemptSends(inv, c, msg, deliver);
      var t := prev.sends + a.sends;
      assert FanOut(inv, channels, msg, deliver).sends == t;
      assert AllSanctioned(inv, init, msg, deliver, prev.sends);
      forall i | 0 <= i < |t|
        ensures Sanctioned(inv, channels, msg, deliver, t[i])
      {
        if i < |prev.sends| {
          assert t[i] == prev.sends[i];
          assert Sanctioned(inv, init, msg, deliver, prev.sends[i]);
        } else {
          assert t[i] == a.sends[i - |prev.sends|];
          assert Sanctioned(inv, [c], msg, deliver, a.sends[i - |prev.sends|]);
        }
      }
    }
  }

  /** Everything sent respects Discord's embed limits (the notices carry no embed). */
  lemma SentEmbedsBounded(inv: Invocation, modQuery: ModifierQuery, matches: LM.Matcher, channelQuery: ChannelQuery,
                          render: Result<MessageSend, string>, deliver: Deliverer)
    requires render.Success? && render.value.embeds != []
    ensures var t := Handle(inv, modQuery, matches, channelQuery, render, deliver);
            forall i, j :: 0 <= i < |t.sends| && 0 <= j < |t.sends[i].message.embeds| ==> Bounded(t.sends[i].message.embeds[j])
  {
    var t := Handle(inv, modQuery, matches, channelQuery, render, deliver);
    if t.sends != [] {
      var check := LM.Evaluate(LM.Fetched(modQuery, inv.repoId).value, inv.header, matches);
      var sel := SelectChannels(inv, check, channelQuery);
      var msg := Limited(render.value);
      LimitedSound(render.value);
      FanOutSendsOnlySanctioned(inv, sel.channels, msg, deliver);
      assert t.sends == FanOut(inv, sel.channels, msg, deliver).sends;
    }
  }

  /**
   * A failed channel query is logged as line 167 writes it: under a key made of
   * the log id, the message and the error, with an empty entry, so the run's
   * own log holds only the processing line.
   */
  lemma ChannelFetchErrorMisfiled(inv: Invocation, modQuery: ModifierQuery, matches: LM.Matcher, err: string,
                                  render: Result<MessageSend, string>, deliver: Deliverer)
    requires LM.Fetched(modQuery, inv.repoId).Success?
    requires var check := LM.Evaluate(LM.Fetched(modQuery, inv.repoId).value, inv.header, matches);
             check.aclFail == "" && check.channelOverride == ""
    ensures var t := Handle(inv, modQuery, matches, Failure(err), render, deliver);
            && t.sends == [] && |t.logs| == 2
            && Key(t.logs[1]) == (inv.logId, "Channel id fetch error: acl=", "error=" + err)
            && GoStrings.Sprintln(t.logs[1].ops) == "\n"
            && (inv.webhookId != "Channel id fetch error: acl=" ==>
                  EntriesFor(t.logs, (inv.logId, inv.webhookId, inv.guildId)) == [GoStrings.Sprintln(ProcessingNote(inv).ops)])
  {
    var t := Handle(inv, modQuery, matches, Failure(err), render, deliver);
    var check := LM.Evaluate(LM.Fetched(modQuery, inv.repoId).value, inv.header, matches);
    var misfiled := LogCall(inv.logId, "Channel id fetch error: acl=", "error=" + err, []);
    assert "Channel id fetch error: acl=" + check.aclFail == "Channel id fetch error: acl=";
    assert SelectChannels(inv, check, Failure(err)) == FetchFailed([misfiled]);
    assert t.logs == [ProcessingNote(inv), misfiled];
    if inv.webhookId != "Channel id fetch error: acl=" {
      EntriesForPair(ProcessingNote(inv), misfiled, (inv.logId, inv.webhookId, inv.guildId));
    }
  }

  lemma EntriesForPair(a: LogCall, b: LogCall, k: LogKey)
    requires Key(a) == k && Key(b) != k
    ensures EntriesFor([a, b], k) == [GoStrings.Sprintln(a.ops)]
  {
    assert [a, b][..1] == [a] && [a][..0] == [];
  }
}
