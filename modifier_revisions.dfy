/**
 * How the two revisions of the event-modifier walk relate, and the resolution
 * order pinned on small rule sets.
 */
module ModifierRevisions {
  import opened Wrappers
  import opened PgTypes
  import New = LogosModifiers
  import Old = Modifiers

  /** A current-revision modifier as the older revision reads it (it has no priority column). */
  function Older(m: New.EventModifier): Old.EventModifier {
    Old.EventModifier(m.id, m.repoId, m.events, m.blacklisted, m.whitelisted, m.redirectChannel)
  }

  function OlderAll(mods: seq<New.EventModifier>): (r: seq<Old.EventModifier>)
    ensures |r| == |mods| && forall i :: 0 <= i < |mods| ==> r[i] == Older(mods[i])
  {
    if mods == [] then [] else [Older(mods[0])] + OlderAll(mods[1..])
  }

  /** OlderAll distributes over concatenation. */
  lemma OlderAllAppend(a: seq<New.EventModifier>, b: seq<New.EventModifier>)
    ensures OlderAll(a + b) == OlderAll(a) + OlderAll(b)
  {
    assert forall i :: 0 <= i < |a| ==> (a + b)[i] == a[i];
    assert forall i :: |a| <= i < |a| + |b| ==> (a + b)[i] == b[i - |a|];
  }

  /** A current-revision row as the older query scans it (without the priority column). */
  function OlderRow(r: New.ModifierRow): Old.ModifierRow {
    Old.ModifierRow(r.id, r.repoId, r.events, r.blacklisted, r.whitelisted, r.redirectChannel)
  }

  function OlderRows(rows: seq<New.ModifierRow>): (r: seq<Old.ModifierRow>)
    ensures |r| == |rows| && forall i :: 0 <= i < |rows| ==> r[i] == OlderRow(rows[i])
  {
    if rows == [] then [] else [OlderRow(rows[0])] + OlderRows(rows[1..])
  }

  function OlderScan(s: Scan<New.ModifierRow>): Scan<Old.ModifierRow> {
    match s
    case Scanned(row) => Scanned(OlderRow(row))
    case ScanFailed(err) => ScanFailed(err)
  }

  function OlderScans(scans: seq<Scan<New.ModifierRow>>): (r: seq<Scan<Old.ModifierRow>>)
    ensures |r| == |scans| && forall i :: 0 <= i < |scans| ==> r[i] == OlderScan(scans[i])
  {
    if scans == [] then [] else [OlderScan(scans[0])] + OlderScans(scans[1..])
  }

  /** The same query result as the older revision would receive it. */
  function OlderQuery(query: Result<seq<Scan<New.ModifierRow>>, string>): Result<seq<Scan<Old.ModifierRow>>, string> {
    match query
    case Failure(e) => Failure(e)
    case Success(scans) => Success(OlderScans(scans))
  }

  lemma {:induction false} FirstScanFailureOlder(scans: seq<Scan<New.ModifierRow>>)
    ensures FirstScanFailure(OlderScans(scans)) == FirstScanFailure(scans)
  {
    if scans != [] {
      FirstScanFailureOlder(scans[1..]);
      assert OlderScans(scans)[1..] == OlderScans(scans[1..]);
    }
  }

  lemma OlderRowsInit(rows: seq<New.ModifierRow>)
    requires rows != []
    ensures OlderRows(rows)[..|rows| - 1] == OlderRows(rows[..|rows| - 1])
    ensures OlderRows(rows)[|rows| - 1] == OlderRow(rows[|rows| - 1])
  {
  }

  /** The older filter keeps the older form of a row exactly when the current one keeps the row. */
  lemma KeptOlder(row: New.ModifierRow, ghRepoId: string)
    ensures OlderAll(if New.InScope(row, ghRepoId) then [New.ToModifier(row)] else [])
         == if Old.InScope(OlderRow(row), ghRepoId) then [Old.ToModifier(OlderRow(row))] else []
  {
  }

  lemma {:induction false} ScopedOlder(rows: seq<New.ModifierRow>, ghRepoId: string)
    ensures Old.Scoped(OlderRows(rows), ghRepoId) == OlderAll(New.Scoped(rows, ghRepoId))
  {
    if rows != [] {
      var init := rows[..|rows| - 1];
      var last := rows[|rows| - 1];
      ScopedOlder(init, ghRepoId);
      OlderRowsInit(rows);
      KeptOlder(last, ghRepoId);
      var kept := if New.InScope(last, ghRepoId) then [New.ToModifier(last)] else [];
      OlderAllAppend(New.Scoped(init, ghRepoId), kept);
    }
  }

  /**
   * Both revisions fetch the same modifiers from the same result set: the same
   * error where the query or a scan fails, and otherwise the same rows in the
   * same order, kept by the same repository filter.
   */
  lemma FetchedAgree(query: Result<seq<Scan<New.ModifierRow>>, string>, ghRepoId: string)
    ensures Old.Fetched(OlderQuery(query), ghRepoId)
         == match New.Fetched(query, ghRepoId)
            case Failure(e) => Failure(e)
            case Success(mods) => Success(OlderAll(mods))
  {
    if query.Success? {
      var scans := query.value;
      FirstScanFailureOlder(scans);
      if FirstScanFailure(scans) < 0 {
        assert Rows(OlderScans(scans)) == OlderRows(Rows(scans));
        ScopedOlder(Rows(scans), ghRepoId);
      }
    }
  }

  function Project(c: New.EventCheck): Old.EventCheck {
    Old.EventCheck(c.aclFail, c.channelOverride)
  }

  /** `o` is the older revision's whitelist denial citing one of the modifiers. */
  predicate WhitelistDenial(mods: seq<New.EventModifier>, o: Old.EventCheck) {
    exists j :: 0 <= j < |mods| && o == Old.EventCheck(Old.WhitelistFail(mods[j].id), "")
  }

  lemma WhitelistDenialTail(mods: seq<New.EventModifier>, o: Old.EventCheck)
    requires mods != [] && WhitelistDenial(mods[1..], o)
    ensures WhitelistDenial(mods, o)
  {
    var j :| 0 <= j < |mods[1..]| && o == Old.EventCheck(Old.WhitelistFail(mods[1..][j].id), "");
    assert mods[1..][j] == mods[j + 1];
  }

  lemma {:induction false} WalksAgree(mods: seq<New.EventModifier>, event: string, matches: (string, string) -> bool, acc: New.EventCheck)
    requires acc.aclFail == "" && New.WellFormed(acc)
    ensures var n := New.Walk(mods, event, matches, acc);
            var o := Old.Walk(OlderAll(mods), event, matches, Project(acc));
            && (n.aclFail != "" || !n.overriden ==> o == Project(n))
            && (o != Project(n) ==> WhitelistDenial(mods, o))
  {
    if mods != [] {
      var m := mods[0];
      var olds := OlderAll(mods);
      assert olds[0] == Older(m);
      assert olds[1..] == OlderAll(mods[1..]);
      assert Old.Matched(Older(m), event, matches) == New.Matched(m, event, matches);
      var n := New.Walk(mods, event, matches, acc);
      var o := Old.Walk(olds, event, matches, Project(acc));
      if !New.Matched(m, event, matches) {
        if !m.whitelisted {
          WalksAgree(mods[1..], event, matches, acc);
          if o != Project(n) {
            WhitelistDenialTail(mods, o);
          }
        } else if o != Project(n) {
          assert o == Old.EventCheck(Old.WhitelistFail(mods[0].id), "");
        }
      } else if !m.blacklisted {
        var acc' := New.Step(m, event, matches, acc);
        assert Project(acc') == Old.Step(Older(m), event, matches, Project(acc));
        WalksAgree(mods[1..], event, matches, acc');
        if o != Project(n) {
          WhitelistDenialTail(mods, o);
        }
      }
    }
  }

  /**
   * The two revisions agree on every rule set, except that where the current
   * revision lets an earlier redirect survive a whitelist miss (an admitted,
   * overridden result), the older revision denies, citing a whitelist-only modifier.
   */
  lemma RevisionsDifferOnlyOnOverride(mods: seq<New.EventModifier>, event: string, matches: (string, string) -> bool)
    ensures var n := New.Evaluate(mods, event, matches);
            var o := Old.Evaluate(OlderAll(mods), event, matches);
            && (n.aclFail != "" || !n.overriden ==> o == Project(n))
            && (o != Project(n) ==>
                  (n.aclFail == "" && n.overriden
                   && exists j :: 0 <= j < |mods| && o == Old.EventCheck(Old.WhitelistFail(mods[j].id), "")))
  {
    WalksAgree(mods, event, matches, New.Admitted);
  }

  function Exact(pattern: string, event: string): bool {
    pattern == event
  }

  /** A redirect on a matching modifier followed by a whitelist miss: the revisions disagree. */
  lemma OverrideSurvivesWhitelistMissOnlyInCurrent()
    ensures var mods := [New.EventModifier("a", "", ["issues"], false, false, "general", 20),
                         New.EventModifier("b", "", ["push"], false, true, "", 10)];
            && New.Evaluate(mods, "issues", Exact) == New.EventCheck("", "general", true)
            && Old.Evaluate(OlderAll(mods), "issues", Exact) == Old.EventCheck(Old.WhitelistFail("b"), "")
  {
    var mods := [New.EventModifier("a", "", ["issues"], false, false, "general", 20),
                 New.EventModifier("b", "", ["push"], false, true, "", 10)];
    assert New.Matched(mods[0], "issues", Exact) by { assert Exact(mods[0].events[0], "issues"); }
    assert mods[1..][1..] == [];
    var olds := OlderAll(mods);
    assert olds[0] == Older(mods[0]) && olds[1] == Older(mods[1]);
    assert Old.Matched(olds[0], "issues", Exact) by { assert Exact(olds[0].events[0], "issues"); }
    assert !Old.Matched(olds[1], "issues", Exact);
    var orest := olds[1..];
    assert orest[0] == olds[1];
    assert Old.Step(olds[0], "issues", Exact, Old.Admitted) == Old.EventCheck("", "general");
    assert Old.Evaluate(olds, "issues", Exact) == Old.Walk(orest, "issues", Exact, Old.EventCheck("", "general"));
  }

  /** A lone whitelist-only rule for `push` denies an `issues` event, citing that rule. */
  lemma WhitelistOnlyDenies(matches: (string, string) -> bool)
    requires !matches("push", "issues")
    ensures New.Evaluate([New.EventModifier("w", "", ["push"], false, true, "", 20)], "issues", matches)
         == New.EventCheck(New.WhitelistFail("w"), "", false)
  {
  }

  /** A matching blacklist rule denies whatever lower-priority rules say. */
  lemma BlacklistBeatsLowerRedirect(matches: (string, string) -> bool, rest: seq<New.EventModifier>)
    requires matches("issues.deleted", "issues.deleted")
    ensures New.Evaluate([New.EventModifier("A", "", ["issues.deleted"], true, false, "", 20)] + rest, "issues.deleted", matches)
         == New.EventCheck(New.BlacklistFail("A"), "", false)
  {
    var mods := [New.EventModifier("A", "", ["issues.deleted"], true, false, "", 20)] + rest;
    assert New.Matched(mods[0], "issues.deleted", matches) by { assert mods[0].events[0] == "issues.deleted"; }
  }

  /** Two matching redirects: the lower-priority one, met last, is the final override. */
  lemma LowerPriorityRedirectWins(matches: (string, string) -> bool, p1: string, p2: string, event: string)
    requires matches(p1, event) && matches(p2, event)
    ensures New.Evaluate([New.EventModifier("r1", "", [p1], false, false, "c1", 10),
                          New.EventModifier("r2", "", [p2], false, false, "c2", 5)], event, matches)
         == New.EventCheck("", "c2", true)
  {
    var mods := [New.EventModifier("r1", "", [p1], false, false, "c1", 10),
                 New.EventModifier("r2", "", [p2], false, false, "c2", 5)];
    assert New.Matched(mods[0], event, matches) by { assert mods[0].events[0] == p1; }
    assert New.Matched(mods[1], event, matches) by { assert mods[1].events[0] == p2; }
    var rest := mods[1..];
    assert rest[0] == mods[1] && rest[1..] == [];
    var a1 := New.Step(mods[0], event, matches, New.Admitted);
    assert a1 == New.EventCheck("", "c1", true);
    assert New.Evaluate(mods, event, matches) == New.Walk(rest, event, matches, a1);
    var a2 := New.Step(rest[0], event, matches, a1);
    assert a2 == New.EventCheck("", "c2", true);
    assert New.Walk(rest, event, matches, a1) == New.Walk([], event, matches, a2);
  }
}
