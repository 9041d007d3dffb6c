/**
 * The event-modifier rule engine, older revision
 * (webserver/eventmodifiers/handlemods.go).
 *
 * The same priority walk as the current revision, with no `overriden` flag:
 * an unmatched whitelist-only modifier always denies, even when an earlier
 * modifier already set a redirect channel.
 */
module Modifiers {
  import opened Wrappers
  import opened PgTypes

  datatype EventCheck = EventCheck(aclFail: string, channelOverride: string)

  datatype EventModifier = EventModifier(
    id: string,
    repoId: string,
    events: seq<string>,
    blacklisted: bool,
    whitelisted: bool,
    redirectChannel: string)

  /** One row of `SELECT id, repo_id, events, blacklisted, whitelisted, redirect_channel`. */
  datatype ModifierRow = ModifierRow(
    id: string,
    repoId: Text,
    events: seq<string>,
    blacklisted: bool,
    whitelisted: bool,
    redirectChannel: Text)

  /** `isMatch(pattern, event)`; its definition is not part of this model, so it is a parameter. */
  type Matcher = (string, string) -> bool

  const Admitted := EventCheck("", "")

  function WhitelistFail(id: string): string {
    "event_modifier " + id + ": whitelist-only event modifier but event not matched"
  }

  function BlacklistFail(id: string): string {
    "event_modifier " + id + ": blacklisted event modifier and event matches modifier"
  }

  // ---------------------------------------------------------------------------
  // GetEventModifiers: the per-repo filter
  // ---------------------------------------------------------------------------

  predicate InScope(row: ModifierRow, ghRepoId: string) {
    ghRepoId == "" || IsNull(row.repoId) || row.repoId.str == ghRepoId
  }

  function ToModifier(row: ModifierRow): EventModifier {
    EventModifier(row.id, row.repoId.str, row.events, row.blacklisted, row.whitelisted, row.redirectChannel.str)
  }

  function Scoped(rows: seq<ModifierRow>, ghRepoId: string): (r: seq<EventModifier>)
    ensures |r| <= |rows|
    ensures ghRepoId == "" ==> |r| == |rows|
  {
    if rows == [] then []
    else
      var last := rows[|rows| - 1];
      Scoped(rows[..|rows| - 1], ghRepoId) + (if InScope(last, ghRepoId) then [ToModifier(last)] else [])
  }

  function Fetched(query: Result<seq<Scan<ModifierRow>>, string>, ghRepoId: string): (r: Result<seq<EventModifier>, string>)
    ensures query.Failure? ==> r == Failure(query.error)
    ensures r.Success? <==> query.Success? && forall j :: 0 <= j < |query.value| ==> query.value[j].Scanned?
    ensures r.Success? ==> |r.value| <= |query.value|
    ensures query.Success? && r.Failure? ==> exists j :: 0 <= j < |query.value| && query.value[j] == ScanFailed(r.error)
  {
    match query
    case Failure(e) => Failure(e)
    case Success(scans) =>
      var k := FirstScanFailure(scans);
      if k >= 0 then Failure(scans[k].err) else Success(Scoped(Rows(scans), ghRepoId))
  }

  lemma ScopedSnoc(rows: seq<ModifierRow>, row: ModifierRow, ghRepoId: string)
    ensures Scoped(rows + [row], ghRepoId)
         == Scoped(rows, ghRepoId) + (if InScope(row, ghRepoId) then [ToModifier(row)] else [])
  {
    assert (rows + [row])[..|rows|] == rows;
  }

  /** One more scanned row: the filter of the longer prefix keeps that row exactly when it is in scope. */
  lemma ScopedStep(scans: seq<Scan<ModifierRow>>, i: nat, ghRepoId: string)
    requires i < |scans|
    requires forall j :: 0 <= j <= i ==> scans[j].Scanned?
    ensures Scoped(Rows(scans[..i + 1]), ghRepoId)
         == Scoped(Rows(scans[..i]), ghRepoId) + (if InScope(scans[i].row, ghRepoId) then [ToModifier(scans[i].row)] else [])
  {
    RowsSnoc(scans, i);
    ScopedSnoc(Rows(scans[..i]), scans[i].row, ghRepoId);
  }

  /** `GetEventModifiers`: the row loop with its `continue`; a query or scan error aborts. */
  method GetEventModifiers(query: Result<seq<Scan<ModifierRow>>, string>, ghRepoId: string)
    returns (r: Result<seq<EventModifier>, string>)
    ensures r == Fetched(query, ghRepoId)
  {
    if query.Failure? {
      return Failure(query.error);
    }
    var scans := query.value;
    var modifiers: seq<EventModifier> := [];
    var i := 0;
    while i < |scans|
      invariant 0 <= i <= |scans|
      invariant forall j :: 0 <= j < i ==> scans[j].Scanned?
      invariant modifiers == Scoped(Rows(scans[..i]), ghRepoId)
    {
      if scans[i].ScanFailed? {
        FirstScanFailureAt(scans, i);
        return Failure(scans[i].err);
      }
      var row := scans[i].row;
      ScopedStep(scans, i, ghRepoId);
      if ghRepoId != "" && (!IsNull(row.repoId) && row.repoId.str != ghRepoId) {
        i := i + 1;
        continue;
      }
      modifiers := modifiers + [ToModifier(row)];
      i := i + 1;
    }
    assert scans[..i] == scans;
    return Success(modifiers);
  }

  /** The filter keeps a modifier exactly when its row is in scope. */
  lemma {:induction false} ScopedMembers(rows: seq<ModifierRow>, ghRepoId: string, m: EventModifier)
    ensures m in Scoped(rows, ghRepoId) <==> exists row :: row in rows && InScope(row, ghRepoId) && ToModifier(row) == m
  {
    if rows != [] {
      var init := rows[..|rows| - 1];
      var last := rows[|rows| - 1];
      ScopedMembers(init, ghRepoId, m);
      assert rows == init + [last];
      forall row | row in init ensures row in rows { }
    }
  }

  /** Kept rows stay in query order: the filter result is the in-scope rows, each kept row after the ones before it. */
  lemma {:induction false} ScopedOrder(rows: seq<ModifierRow>, ghRepoId: string, i: nat, j: nat)
    requires i < j < |rows| && InScope(rows[i], ghRepoId) && InScope(rows[j], ghRepoId)
    ensures exists a, b :: 0 <= a < b < |Scoped(rows, ghRepoId)|
              && Scoped(rows, ghRepoId)[a] == ToModifier(rows[i]) && Scoped(rows, ghRepoId)[b] == ToModifier(rows[j])
  {
    var init := rows[..|rows| - 1];
    if j < |rows| - 1 {
      assert init[i] == rows[i] && init[j] == rows[j];
      ScopedOrder(init, ghRepoId, i, j);
      var a, b :| 0 <= a < b < |Scoped(init, ghRepoId)|
              && Scoped(init, ghRepoId)[a] == ToModifier(rows[i]) && Scoped(init, ghRepoId)[b] == ToModifier(rows[j]);
      assert Scoped(rows, ghRepoId)[a] == ToModifier(rows[i]) && Scoped(rows, ghRepoId)[b] == ToModifier(rows[j]);
    } else {
      assert init[i] == rows[i];
      ScopedMembers(init, ghRepoId, ToModifier(rows[i]));
      var a :| 0 <= a < |Scoped(init, ghRepoId)| && Scoped(init, ghRepoId)[a] == ToModifier(rows[i]);
      var b := |Scoped(init, ghRepoId)|;
      assert Scoped(rows, ghRepoId)[a] == ToModifier(rows[i]) && Scoped(rows, ghRepoId)[b] == ToModifier(rows[j]);
    }
  }

  // ---------------------------------------------------------------------------
  // CheckEventAllowed: the priority walk
  // ---------------------------------------------------------------------------

  predicate Matched(m: EventModifier, event: string, matches: Matcher) {
    exists i :: 0 <= i < |m.events| && matches(m.events[i], event)
  }

  function Step(m: EventModifier, event: string, matches: Matcher, acc: EventCheck): (r: EventCheck)
    ensures r.aclFail == acc.aclFail
    ensures r == acc || (Matched(m, event, matches) && r.channelOverride == m.redirectChannel != "")
    ensures Matched(m, event, matches) && m.redirectChannel != "" ==> r.channelOverride == m.redirectChannel
  {
    if Matched(m, event, matches) && m.redirectChannel != "" then acc.(channelOverride := m.redirectChannel) else acc
  }

  /** A denial carries no override. */
  predicate WellFormed(c: EventCheck) {
    c.aclFail != "" ==> c.channelOverride == ""
  }

  /** The loop of CheckEventAllowed, as a function of the remaining modifiers and the result so far. */
  function Walk(mods: seq<EventModifier>, event: string, matches: Matcher, acc: EventCheck): (r: EventCheck)
    ensures acc.aclFail == "" ==> WellFormed(r)
    decreases |mods|
  {
    if mods == [] then acc
    else
      var m := mods[0];
      if !Matched(m, event, matches) then
        if m.whitelisted then EventCheck(WhitelistFail(m.id), "")
        else Walk(mods[1..], event, matches, acc)
      else if m.blacklisted then EventCheck(BlacklistFail(m.id), "")
      else Walk(mods[1..], event, matches, Step(m, event, matches, acc))
  }

  function Evaluate(mods: seq<EventModifier>, event: string, matches: Matcher): (r: EventCheck)
    ensures WellFormed(r)
    ensures mods == [] ==> r == Admitted
    ensures r.aclFail != "" ==> mods != []
  {
    Walk(mods, event, matches, Admitted)
  }

  /** `CheckEventAllowed`: fetch, then walk; a fetch error is returned with no check. */
  method CheckEventAllowed(
    query: Result<seq<Scan<ModifierRow>>, string>,
    ghRepoId: string,
    ghEvent: string,
    matches: Matcher)
    returns (r: Result<EventCheck, string>)
    ensures Fetched(query, ghRepoId).Failure? ==> r == Failure(Fetched(query, ghRepoId).error)
    ensures Fetched(query, ghRepoId).Success? ==> r == Success(Evaluate(Fetched(query, ghRepoId).value, ghEvent, matches))
  {
    var fetched := GetEventModifiers(query, ghRepoId);
    if fetched.Failure? {
      return Failure(fetched.error);
    }
    var modifiers := fetched.value;
    var result := Admitted;
    var i := 0;
    while i < |modifiers|
      invariant 0 <= i <= |modifiers|
      invariant Walk(modifiers, ghEvent, matches, Admitted) == Walk(modifiers[i..], ghEvent, matches, result)
    {
      var modifier := modifiers[i];
      assert modifiers[i..][0] == modifier && modifiers[i..][1..] == modifiers[i + 1..];
      var matched := false;
      var j := 0;
      while j < |modifier.events|
        invariant 0 <= j <= |modifier.events|
        invariant matched <==> exists k :: 0 <= k < j && matches(modifier.events[k], ghEvent)
      {
        if matches(modifier.events[j], ghEvent) {
          matched := true;
          break;
        }
        j := j + 1;
      }
      assert matched == Matched(modifier, ghEvent, matches);
      if !matched {
        if modifier.whitelisted {
          return Success(EventCheck(WhitelistFail(modifier.id), ""));
        }
        i := i + 1;
        continue;
      }
      if modifier.blacklisted {
        return Success(EventCheck(BlacklistFail(modifier.id), ""));
      }
      if modifier.redirectChannel != "" {
        result := result.(channelOverride := modifier.redirectChannel);
      }
      i := i + 1;
    }
    return Success(result);
  }

  // ---------------------------------------------------------------------------
  // What the walk decides, stated without the walk
  // ---------------------------------------------------------------------------

  predicate Decides(m: EventModifier, event: string, matches: Matcher) {
    (Matched(m, event, matches) && m.blacklisted) || (!Matched(m, event, matches) && m.whitelisted)
  }

  function Redirects(mods: seq<EventModifier>, event: string, matches: Matcher): seq<string> {
    if mods == [] then []
    else
      (if Matched(mods[0], event, matches) && mods[0].redirectChannel != "" then [mods[0].redirectChannel] else [])
      + Redirects(mods[1..], event, matches)
  }

  function LastRedirect(mods: seq<EventModifier>, event: string, matches: Matcher, dflt: string): string {
    var rs := Redirects(mods, event, matches);
    if rs == [] then dflt else rs[|rs| - 1]
  }

  lemma LastRedirectStep(mods: seq<EventModifier>, event: string, matches: Matcher, acc: EventCheck)
    requires mods != []
    ensures LastRedirect(mods, event, matches, acc.channelOverride)
         == LastRedirect(mods[1..], event, matches, Step(mods[0], event, matches, acc).channelOverride)
  {
  }

  lemma {:induction false} WalkUndecided(mods: seq<EventModifier>, event: string, matches: Matcher, acc: EventCheck)
    requires acc.aclFail == ""
    requires forall j :: 0 <= j < |mods| ==> !Decides(mods[j], event, matches)
    ensures Walk(mods, event, matches, acc) == EventCheck("", LastRedirect(mods, event, matches, acc.channelOverride))
  {
    if mods != [] {
      var m := mods[0];
      assert !Decides(m, event, matches);
      var acc' := Step(m, event, matches, acc);
      assert Walk(mods, event, matches, acc) == Walk(mods[1..], event, matches, acc');
      WalkUndecided(mods[1..], event, matches, acc');
      LastRedirectStep(mods, event, matches, acc);
    }
  }

  lemma {:induction false} WalkDecided(mods: seq<EventModifier>, event: string, matches: Matcher, acc: EventCheck, k: nat)
    requires k < |mods| && Decides(mods[k], event, matches)
    requires forall j :: 0 <= j < k ==> !Decides(mods[j], event, matches)
    ensures Walk(mods, event, matches, acc)
         == if Matched(mods[k], event, matches) then EventCheck(BlacklistFail(mods[k].id), "")
            else EventCheck(WhitelistFail(mods[k].id), "")
  {
    if k > 0 {
      var m := mods[0];
      assert !Decides(m, event, matches);
      var acc' := Step(m, event, matches, acc);
      assert Walk(mods, event, matches, acc) == Walk(mods[1..], event, matches, acc');
      assert mods[1..][k - 1] == mods[k];
      assert forall j :: 0 <= j < k - 1 ==> mods[1..][j] == mods[j + 1];
      WalkDecided(mods[1..], event, matches, acc', k - 1);
    }
  }

  /** With no modifier deciding the event, it is admitted with the redirect of the last matching modifier that names one. */
  lemma AdmittedWithLastRedirect(mods: seq<EventModifier>, event: string, matches: Matcher)
    requires forall j :: 0 <= j < |mods| ==> !Decides(mods[j], event, matches)
    ensures Evaluate(mods, event, matches) == EventCheck("", LastRedirect(mods, event, matches, ""))
  {
    WalkUndecided(mods, event, matches, Admitted);
  }

  /**
   * The first modifier that decides the event denies it citing its id, whatever
   * redirect was set before it: a blacklist match, or a whitelist miss.
   */
  lemma FirstDeciderDenies(mods: seq<EventModifier>, event: string, matches: Matcher, k: nat)
    requires k < |mods| && Decides(mods[k], event, matches)
    requires forall j :: 0 <= j < k ==> !Decides(mods[j], event, matches)
    ensures Matched(mods[k], event, matches) ==>
              Evaluate(mods, event, matches) == EventCheck(BlacklistFail(mods[k].id), "")
    ensures !Matched(mods[k], event, matches) ==>
              Evaluate(mods, event, matches) == EventCheck(WhitelistFail(mods[k].id), "")
  {
    WalkDecided(mods, event, matches, Admitted, k);
  }
}
