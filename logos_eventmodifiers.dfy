/**
 * The event-modifier rule engine, current revision
 * (webserver/logos/eventmodifiers/handlemods.go).
 *
 * A webhook's modifiers arrive from the database ordered by priority, highest
 * first. `CheckEventAllowed` walks them once: an unmatched whitelist-only
 * modifier or a matched blacklisted one decides the event; a matched modifier
 * with a redirect channel sets the channel override and marks the result
 * `overriden`, and a later whitelist miss then lets that redirect stand.
 */
module LogosModifiers {
  import opened Wrappers
  import opened PgTypes

  /** The outcome of the walk: `aclFail` is empty when the event is admitted. */
  datatype EventCheck = EventCheck(aclFail: string, channelOverride: string, overriden: bool)

  datatype EventModifier = EventModifier(
    id: string,
    repoId: string,
    events: seq<string>,
    blacklisted: bool,
    whitelisted: bool,
    redirectChannel: string,
    priority: int)

  /** One row of `SELECT id, repo_id, events, blacklisted, whitelisted, redirect_channel, priority`. */
  datatype ModifierRow = ModifierRow(
    id: string,
    repoId: Text,
    events: seq<string>,
    blacklisted: bool,
    whitelisted: bool,
    redirectChannel: Text,
    priority: int)

  /** `isMatch(pattern, event)`; its definition is not part of this model, so it is a parameter. */
  type Matcher = (string, string) -> bool

  /** The result the walk starts from: admitted, no override. */
  const Admitted := EventCheck("", "", false)

  function WhitelistFail(id: string): string {
    "event_modifier " + id + ": whitelist-only event modifier but event not matched"
  }

  function BlacklistFail(id: string): string {
    "event_modifier " + id + ": blacklisted event modifier and event matches modifier"
  }

  // ---------------------------------------------------------------------------
  // GetEventModifiers: the per-repo filter
  // ---------------------------------------------------------------------------

  /** A row applies to the repository when no repository is asked for, the row is global, or it names that repository. */
  predicate InScope(row: ModifierRow, ghRepoId: string) {
    ghRepoId == "" || IsNull(row.repoId) || row.repoId.str == ghRepoId
  }

  function ToModifier(row: ModifierRow): EventModifier {
    EventModifier(row.id, row.repoId.str, row.events, row.blacklisted, row.whitelisted,
                  row.redirectChannel.str, row.priority)
  }

  /** The kept rows, in the order the query returned them. */
  function Scoped(rows: seq<ModifierRow>, ghRepoId: string): (r: seq<EventModifier>)
    ensures |r| <= |rows|
    ensures ghRepoId == "" ==> |r| == |rows|
  {
    if rows == [] then []
    else
      var last := rows[|rows| - 1];
      Scoped(rows[..|rows| - 1], ghRepoId) + (if InScope(last, ghRepoId) then [ToModifier(last)] else [])
  }

  /** What GetEventModifiers returns for a query result. */
  function Fetched(query: Result<seq<Scan<ModifierRow>>, string>, ghRepoId: string): (r: Result<seq<EventModifier>, string>)
    ensures query.Failure? ==> r == Failure(query.error)
    ensures r.Success? <==> query.Success? && forall j :: 0 <= j < |query.value| ==> query.value[j].Scanned?
    ensures r.Success? ==> |r.value| <= |query.value|
    ensures query.Success? && r.Failure? ==> exists j :: 0 <= j < |query.value| && query.value[j] == ScanFailed(r.error)
  {
    match query
    case Failure(e) => Failure(e)
    case Success(scans) =>
      var k := FirstScanFailure(scans);
      if k >= 0 then Failure(scans[k].err) else Success(Scoped(Rows(scans), ghRepoId))
  }

  lemma ScopedSnoc(rows: seq<ModifierRow>, row: ModifierRow, ghRepoId: string)
    ensures Scoped(rows + [row], ghRepoId)
         == Scoped(rows, ghRepoId) + (if InScope(row, ghRepoId) then [ToModifier(row)] else [])
  {
    assert (rows + [row])[..|rows|] == rows;
  }

  /** One more scanned row: the filter of the longer prefix keeps that row exactly when it is in scope. */
  lemma ScopedStep(scans: seq<Scan<ModifierRow>>, i: nat, ghRepoId: string)
    requires i < |scans|
    requires forall j :: 0 <= j <= i ==> scans[j].Scanned?
    ensures Scoped(Rows(scans[..i + 1]), ghRepoId)
         == Scoped(Rows(scans[..i]), ghRepoId) + (if InScope(scans[i].row, ghRepoId) then [ToModifier(scans[i].row)] else [])
  {
    RowsSnoc(scans, i);
    ScopedSnoc(Rows(scans[..i]), scans[i].row, ghRepoId);
  }

  /** `GetEventModifiers`: the row loop with its `continue`; a query or scan error aborts. */
  method GetEventModifiers(query: Result<seq<Scan<ModifierRow>>, string>, ghRepoId: string)
    returns (r: Result<seq<EventModifier>, string>)
    ensures r == Fetched(query, ghRepoId)
  {
    if query.Failure? {
      return Failure(query.error);
    }
    var scans := query.value;
    var modifiers: seq<EventModifier> := [];
    var i := 0;
    while i < |scans|
      invariant 0 <= i <= |scans|
      invariant forall j :: 0 <= j < i ==> scans[j].Scanned?
      invariant modifiers == Scoped(Rows(scans[..i]), ghRepoId)
    {
      if scans[i].ScanFailed? {
        FirstScanFailureAt(scans, i);
        return Failure(scans[i].err);
      }
      var row := scans[i].row;
      ScopedStep(scans, i, ghRepoId);
      if ghRepoId != "" && (!IsNull(row.repoId) && row.repoId.str != ghRepoId) {
        i := i + 1;
        continue;
      }
      modifiers := modifiers + [ToModifier(row)];
      i := i + 1;
    }
    assert scans[..i] == scans;
    return Success(modifiers);
  }

  /** The filter keeps a modifier exactly when its row is in scope. */
  lemma {:induction false} ScopedMembers(rows: seq<ModifierRow>, ghRepoId: string, m: EventModifier)
    ensures m in Scoped(rows, ghRepoId) <==> exists row :: row in rows && InScope(row, ghRepoId) && ToModifier(row) == m
  {
    if rows != [] {
      var init := rows[..|rows| - 1];
      var last := rows[|rows| - 1];
      ScopedMembers(init, ghRepoId, m);
      assert rows == init + [last];
      forall row | row in init ensures row in rows { }
    }
  }

  /** A global row, one whose repository column is NULL or empty, is kept whatever repository is asked for. */
  lemma GlobalRowsKept(rows: seq<ModifierRow>, ghRepoId: string, row: ModifierRow)
    requires row in rows && IsNull(row.repoId)
    ensures ToModifier(row) in Scoped(rows, ghRepoId)
  {
    ScopedMembers(rows, ghRepoId, ToModifier(row));
  }

  /** Without a repository id every row is kept. */
  lemma {:induction false} ScopedAllWithoutRepo(rows: seq<ModifierRow>)
    ensures |Scoped(rows, "")| == |rows|
    ensures forall j :: 0 <= j < |rows| ==> Scoped(rows, "")[j] == ToModifier(rows[j])
  {
    if rows != [] {
      ScopedAllWithoutRepo(rows[..|rows| - 1]);
    }
  }

  predicate RowsByPriority(rows: seq<ModifierRow>) {
    forall i, j :: 0 <= i < j < |rows| ==> rows[i].priority >= rows[j].priority
  }

  predicate ByPriority(mods: seq<EventModifier>) {
    forall i, j :: 0 <= i < j < |mods| ==> mods[i].priority >= mods[j].priority
  }

  /** Filtering keeps the query's priority-descending order, so the walk still sees the highest priority first. */
  lemma {:induction false} ScopedByPriority(rows: seq<ModifierRow>, ghRepoId: string)
    requires RowsByPriority(rows)
    ensures ByPriority(Scoped(rows, ghRepoId))
  {
    if rows != [] {
      var init := rows[..|rows| - 1];
      var last := rows[|rows| - 1];
      ScopedByPriority(init, ghRepoId);
      var s := Scoped(init, ghRepoId);
      forall m | m in s ensures m.priority >= last.priority {
        ScopedMembers(init, ghRepoId, m);
        var row :| row in init && InScope(row, ghRepoId) && ToModifier(row) == m;
        var j :| 0 <= j < |init| && init[j] == row;
        assert rows[j] == row;
      }
      if InScope(last, ghRepoId) {
        var t := s + [ToModifier(last)];
        forall i, j | 0 <= i < j < |t| ensures t[i].priority >= t[j].priority {
          if j == |s| {
            assert t[i] in s;
          }
        }
      }
    }
  }

  // ---------------------------------------------------------------------------
  // CheckEventAllowed: the priority walk
  // ---------------------------------------------------------------------------

  /** Some pattern of the modifier matches the event. */
  predicate Matched(m: EventModifier, event: string, matches: Matcher) {
    exists i :: 0 <= i < |m.events| && matches(m.events[i], event)
  }

  /** One step of the walk from `acc`, for a modifier that does not end it. */
  function Step(m: EventModifier, event: string, matches: Matcher, acc: EventCheck): (r: EventCheck)
    ensures r.aclFail == acc.aclFail
    ensures r == acc || (Matched(m, event, matches) && r.channelOverride == m.redirectChannel != "" && r.overriden)
    ensures Matched(m, event, matches) && m.redirectChannel != "" ==> r.channelOverride == m.redirectChannel && r.overriden
    ensures WellFormed(acc) && acc.aclFail == "" ==> WellFormed(r)
  {
    if Matched(m, event, matches) && m.redirectChannel != "" then
      acc.(channelOverride := m.redirectChannel, overriden := true)
    else acc
  }

  /** A result is well formed: `overriden` exactly when there is an override, and a denial carries none. */
  predicate WellFormed(c: EventCheck) {
    && (c.overriden <==> c.channelOverride != "")
    && (c.aclFail != "" ==> c.channelOverride == "")
  }

  /** The loop of CheckEventAllowed, as a function of the remaining modifiers and the result so far. */
  function Walk(mods: seq<EventModifier>, event: string, matches: Matcher, acc: EventCheck): (r: EventCheck)
    ensures WellFormed(acc) && acc.aclFail == "" ==> WellFormed(r)
    decreases |mods|
  {
    if mods == [] then acc
    else
      var m := mods[0];
      if !Matched(m, event, matches) then
        if m.whitelisted then
          if acc.overriden then acc else EventCheck(WhitelistFail(m.id), "", false)
        else Walk(mods[1..], event, matches, acc)
      else if m.blacklisted then EventCheck(BlacklistFail(m.id), "", false)
      else Walk(mods[1..], event, matches, Step(m, event, matches, acc))
  }

  /** `CheckEventAllowed` once the modifiers are fetched. */
  function Evaluate(mods: seq<EventModifier>, event: string, matches: Matcher): (r: EventCheck)
    ensures WellFormed(r)
    ensures mods == [] ==> r == Admitted
    ensures r.aclFail != "" ==> mods != []
  {
    Walk(mods, event, matches, Admitted)
  }

  /** `CheckEventAllowed`: fetch, then walk; a fetch error is returned with no check. */
  method CheckEventAllowed(
    query: Result<seq<Scan<ModifierRow>>, string>,
    ghRepoId: string,
    ghEvent: string,
    matches: Matcher)
    returns (r: Result<EventCheck, string>)
    ensures Fetched(query, ghRepoId).Failure? ==> r == Failure(Fetched(query, ghRepoId).error)
    ensures Fetched(query, ghRepoId).Success? ==> r == Success(Evaluate(Fetched(query, ghRepoId).value, ghEvent, matches))
  {
    var fetched := GetEventModifiers(query, ghRepoId);
    if fetched.Failure? {
      return Failure(fetched.error);
    }
    var modifiers := fetched.value;
    var result := Admitted;
    var i := 0;
    while i < |modifiers|
      invariant 0 <= i <= |modifiers|
      invariant Walk(modifiers, ghEvent, matches, Admitted) == Walk(modifiers[i..], ghEvent, matches, result)
    {
      var modifier := modifiers[i];
      assert modifiers[i..][0] == modifier && modifiers[i..][1..] == modifiers[i + 1..];
      var matched := false;
      var j := 0;
      while j < |modifier.events|
        invariant 0 <= j <= |modifier.events|
        invariant matched <==> exists k :: 0 <= k < j && matches(modifier.events[k], ghEvent)
      {
        if matches(modifier.events[j], ghEvent) {
          matched := true;
          break;
        }
        j := j + 1;
      }
      assert matched == Matched(modifier, ghEvent, matches);
      if !matched {
        if modifier.whitelisted {
          if result.overriden {
            return Success(result);
          }
          return Success(EventCheck(WhitelistFail(modifier.id), "", false));
        }
        i := i + 1;
        continue;
      }
      if modifier.blacklisted {
        return Success(EventCheck(BlacklistFail(modifier.id), "", false));
      }
      if modifier.redirectChannel != "" {
        result := result.(channelOverride := modifier.redirectChannel);
        result := result.(overriden := true);
      }
      i := i + 1;
    }
    return Success(result);
  }

  // ---------------------------------------------------------------------------
  // What the walk decides, stated without the walk
  // ---------------------------------------------------------------------------

  /** The modifier ends the walk: a whitelist miss or a blacklist match. */
  predicate Decides(m: EventModifier, event: string, matches: Matcher) {
    (Matched(m, event, matches) && m.blacklisted) || (!Matched(m, event, matches) && m.whitelisted)
  }

  /** The redirect channels of the matching modifiers that name one, in walk order. */
  function Redirects(mods: seq<EventModifier>, event: string, matches: Matcher): seq<string> {
    if mods == [] then []
    else
      (if Matched(mods[0], event, matches) && mods[0].redirectChannel != "" then [mods[0].redirectChannel] else [])
      + Redirects(mods[1..], event, matches)
  }

  /** The override that survives: the last of the redirects, or `dflt` when there is none. */
  function LastRedirect(mods: seq<EventModifier>, event: string, matches: Matcher, dflt: string): string {
    var rs := Redirects(mods, event, matches);
    if rs == [] then dflt else rs[|rs| - 1]
  }

  function AdmittedWith(channel: string): EventCheck {
    EventCheck("", channel, channel != "")
  }

  /** Taking one undecisive step moves the first modifier's redirect into the default. */
  lemma LastRedirectStep(mods: seq<EventModifier>, event: string, matches: Matcher, acc: EventCheck)
    requires mods != []
    ensures LastRedirect(mods, event, matches, acc.channelOverride)
         == LastRedirect(mods[1..], event, matches, Step(mods[0], event, matches, acc).channelOverride)
  {
  }

  lemma {:induction false} WalkUndecided(mods: seq<EventModifier>, event: string, matches: Matcher, acc: EventCheck)
    requires acc.aclFail == "" && WellFormed(acc)
    requires forall j :: 0 <= j < |mods| ==> !Decides(mods[j], event, matches)
    ensures Walk(mods, event, matches, acc) == AdmittedWith(LastRedirect(mods, event, matches, acc.channelOverride))
  {
    if mods != [] {
      var m := mods[0];
      assert !Decides(m, event, matches);
      var acc' := Step(m, event, matches, acc);
      assert Walk(mods, event, matches, acc) == Walk(mods[1..], event, matches, acc');
      WalkUndecided(mods[1..], event, matches, acc');
      LastRedirectStep(mods, event, matches, acc);
    }
  }

  lemma {:induction false} WalkDecided(mods: seq<EventModifier>, event: string, matches: Matcher, acc: EventCheck, k: nat)
    requires acc.aclFail == "" && WellFormed(acc)
    requires k < |mods| && Decides(mods[k], event, matches)
    requires forall j :: 0 <= j < k ==> !Decides(mods[j], event, matches)
    ensures Walk(mods, event, matches, acc)
         == if Matched(mods[k], event, matches) then EventCheck(BlacklistFail(mods[k].id), "", false)
            else if LastRedirect(mods[..k], event, matches, acc.channelOverride) != "" then
              AdmittedWith(LastRedirect(mods[..k], event, matches, acc.channelOverride))
            else EventCheck(WhitelistFail(mods[k].id), "", false)
  {
    if k > 0 {
      var m := mods[0];
      assert !Decides(m, event, matches);
      var acc' := Step(m, event, matches, acc);
      assert Walk(mods, event, matches, acc) == Walk(mods[1..], event, matches, acc');
      assert mods[1..][k - 1] == mods[k];
      assert mods[1..][..k - 1] == mods[..k][1..];
      assert forall j :: 0 <= j < k - 1 ==> mods[1..][j] == mods[j + 1];
      WalkDecided(mods[1..], event, matches, acc', k - 1);
      LastRedirectStep(mods[..k], event, matches, acc);
    }
  }

  /**
   * With no modifier deciding the event, it is admitted and the override is the
   * redirect of the LAST matching modifier that names one, i.e. the lowest
   * priority among them; with no modifiers at all it is admitted with no override.
   */
  lemma AdmittedWithLastRedirect(mods: seq<EventModifier>, event: string, matches: Matcher)
    requires forall j :: 0 <= j < |mods| ==> !Decides(mods[j], event, matches)
    ensures Evaluate(mods, event, matches) == AdmittedWith(LastRedirect(mods, event, matches, ""))
  {
    WalkUndecided(mods, event, matches, Admitted);
  }

  /**
   * The first modifier that decides the event settles the result and no later
   * modifier is looked at: a blacklist match denies citing its id; a whitelist
   * miss keeps an override an earlier modifier set, and denies citing its id
   * when there is none.
   */
  lemma FirstDeciderSettles(mods: seq<EventModifier>, event: string, matches: Matcher, k: nat)
    requires k < |mods| && Decides(mods[k], event, matches)
    requires forall j :: 0 <= j < k ==> !Decides(mods[j], event, matches)
    ensures Matched(mods[k], event, matches) ==>
              Evaluate(mods, event, matches) == EventCheck(BlacklistFail(mods[k].id), "", false)
    ensures !Matched(mods[k], event, matches) && LastRedirect(mods[..k], event, matches, "") != "" ==>
              Evaluate(mods, event, matches) == AdmittedWith(LastRedirect(mods[..k], event, matches, ""))
    ensures !Matched(mods[k], event, matches) && LastRedirect(mods[..k], event, matches, "") == "" ==>
              Evaluate(mods, event, matches) == EventCheck(WhitelistFail(mods[k].id), "", false)
  {
    WalkDecided(mods, event, matches, Admitted, k);
  }

  /** Every result of the walk is well formed, and a denial cites one of the modifiers. */
  lemma {:induction false} EvaluateWellFormed(mods: seq<EventModifier>, event: string, matches: Matcher)
    ensures WellFormed(Evaluate(mods, event, matches))
    ensures Evaluate(mods, event, matches).aclFail != "" ==>
              exists j :: 0 <= j < |mods| && Evaluate(mods, event, matches).aclFail in {WhitelistFail(mods[j].id), BlacklistFail(mods[j].id)}
  {
    WalkCites(mods, event, matches, Admitted);
  }

  /** `fail` is the denial text of one of the modifiers. */
  predicate Cites(mods: seq<EventModifier>, fail: string) {
    exists j :: 0 <= j < |mods| && fail in {WhitelistFail(mods[j].id), BlacklistFail(mods[j].id)}
  }

  lemma CitesTail(mods: seq<EventModifier>, fail: string)
    requires mods != [] && Cites(mods[1..], fail)
    ensures Cites(mods, fail)
  {
    var j :| 0 <= j < |mods[1..]| && fail in {WhitelistFail(mods[1..][j].id), BlacklistFail(mods[1..][j].id)};
    assert mods[1..][j] == mods[j + 1];
  }

  lemma {:induction false} WalkCites(mods: seq<EventModifier>, event: string, matches: Matcher, acc: EventCheck)
    requires acc.aclFail == ""
    ensures Walk(mods, event, matches, acc).aclFail != "" ==> Cites(mods, Walk(mods, event, matches, acc).aclFail)
  {
    if mods != [] && Matched(mods[0], event, matches) && !mods[0].blacklisted {
      var acc' := Step(mods[0], event, matches, acc);
      WalkCites(mods[1..], event, matches, acc');
      if Walk(mods, event, matches, acc).aclFail != "" {
        CitesTail(mods, Walk(mods[1..], event, matches, acc').aclFail);
      }
    } else if mods != [] && !Matched(mods[0], event, matches) && !mods[0].whitelisted {
      WalkCites(mods[1..], event, matches, acc);
      if Walk(mods, event, matches, acc).aclFail != "" {
        CitesTail(mods, Walk(mods[1..], event, matches, acc).aclFail);
      }
    } else if mods != [] {
      var fail := Walk(mods, event, matches, acc).aclFail;
      if fail != "" {
        assert fail in {WhitelistFail(mods[0].id), BlacklistFail(mods[0].id)};
      }
    }
  }
}
