/**
 * The branch protection rule formatter (webserver/logos/events/branch_protection_rule.go):
 * the settings accumulator with its 2500-byte cut-off, and the one-embed
 * message built around it.
 */
module BranchProtection {
  import opened Wrappers
  import opened GoStrings
  import opened Discord
  import opened EventsCommon

  /** `settingsStr` is only checked against this length before each append. */
  const SettingsBudget := 2500

  /** What `settings()` appends once the budget is exceeded. */
  const Marker := "\n..."

  datatype Rule = Rule(
    id: int,
    name: string,
    updatedAt: string,
    createdAt: string,
    adminEnforced: bool,
    requireCodeOwnerReview: bool,
    allowDeletionsEnforcementLevel: string,
    allowForcePushesEnforcementLevel: string,
    authorizedActorNames: seq<string>,
    authorizedActorsOnly: bool,
    authorizedDismissalActorsOnly: bool,
    createProtected: bool,
    dismissStaleReviewsOnPush: bool,
    ignoreApprovalsFromContributors: bool,
    linearHistoryRequirementEnforcementLevel: string,
    mergeQueueEnforcementLevel: string,
    pullRequestReviewsEnforcementLevel: string,
    requiredApprovingReviewCount: int,
    requiredConversationResolutionLevel: string,
    requiredDeploymentsEnforcementLevel: string,
    requiredStatusChecks: seq<string>,
    signatureRequirementEnforcementLevel: string,
    strictRequiredStatusChecksPolicy: bool)

  /**
   * The event as decoded. `changes` holds the keys of the `changes` object in
   * the order the map iteration of line 167 yields them.
   */
  datatype Event = Event(action: string, repo: Repository, sender: User, rule: Rule, changes: seq<string>)

  const SettingKeys: seq<string> := [
    "Admin enforced", "Require code owner review", "Allow deletions", "Allow force pushes",
    "Authorized actors", "Authorized actors only", "Authorized dismissal actors only", "Create protected",
    "Dismiss stale reviews on push", "Ignore approvals from contributors", "Linear history requirement",
    "Merge queue requirement", "Pull request reviews requirement", "Required approving review count",
    "Required conversation resolution", "Required deployments", "Required status checks",
    "Signature requirement", "Strict status checks"]

  /** The 19 settings of lines 39-116, in that order. */
  function Settings(r: Rule): (kvs: seq<KeyValue>)
    ensures |kvs| == |SettingKeys| == 19
    ensures forall i :: 0 <= i < |kvs| ==> kvs[i].key == SettingKeys[i]
    ensures kvs[4].value == VStr(Join(r.authorizedActorNames, ", "))
    ensures kvs[16].value == VStr(Join(r.requiredStatusChecks, ", "))
  {
    [KeyValue("Admin enforced", VBool(r.adminEnforced)),
     KeyValue("Require code owner review", VBool(r.requireCodeOwnerReview)),
     KeyValue("Allow deletions", VStr(r.allowDeletionsEnforcementLevel)),
     KeyValue("Allow force pushes", VStr(r.allowForcePushesEnforcementLevel)),
     KeyValue("Authorized actors", VStr(Join(r.authorizedActorNames, ", "))),
     KeyValue("Authorized actors only", VBool(r.authorizedActorsOnly)),
     KeyValue("Authorized dismissal actors only", VBool(r.authorizedDismissalActorsOnly)),
     KeyValue("Create protected", VBool(r.createProtected)),
     KeyValue("Dismiss stale reviews on push", VBool(r.dismissStaleReviewsOnPush)),
     KeyValue("Ignore approvals from contributors", VBool(r.ignoreApprovalsFromContributors)),
     KeyValue("Linear history requirement", VStr(r.linearHistoryRequirementEnforcementLevel)),
     KeyValue("Merge queue requirement", VStr(r.mergeQueueEnforcementLevel)),
     KeyValue("Pull request reviews requirement", VStr(r.pullRequestReviewsEnforcementLevel)),
     KeyValue("Required approving review count", VInt(r.requiredApprovingReviewCount)),
     KeyValue("Required conversation resolution", VStr(r.requiredConversationResolutionLevel)),
     KeyValue("Required deployments", VStr(r.requiredDeploymentsEnforcementLevel)),
     KeyValue("Required status checks", VStr(Join(r.requiredStatusChecks, ", "))),
     KeyValue("Signature requirement", VStr(r.signatureRequirementEnforcementLevel)),
     KeyValue("Strict status checks", VBool(r.strictRequiredStatusChecksPolicy))]
  }

  /** Every setting of `items` on a line of its own, Markdown key first. */
  function Lines(items: seq<KeyValue>): (s: string)
    ensures items != [] ==> |s| > 0 && s[|s| - 1] == '\n'
    decreases |items|
  {
    if items == [] then "" else Lines(items[..|items| - 1]) + StringMD(items[|items| - 1]) + "\n"
  }

  /** The accumulator from the `i`-th setting on, with `Lines(items[..i])` accumulated so far. */
  function SettingsFrom(items: seq<KeyValue>, i: nat): (r: string)
    requires i <= |items|
    ensures HasPrefix(r, Lines(items[..i]))
    ensures r == Lines(items) || HasSuffix(r, Marker)
    decreases |items| - i
  {
    var acc := Lines(items[..i]);
    if i == |items| then
      assert items[..i] == items;
      acc
    else if |acc| > SettingsBudget then
      var r := acc + Marker;
      assert r[..|acc|] == acc && r[|r| - |Marker|..] == Marker;
      r
    else
      var r := SettingsFrom(items, i + 1);
      var next := Lines(items[..i + 1]);
      assert items[..i + 1][..i] == items[..i];
      assert next == acc + StringMD(items[i]) + "\n";
      assert next[..|acc|] == acc;
      assert r[..|acc|] == next[..|acc|];
      r
  }

  function SettingsText(items: seq<KeyValue>): string {
    SettingsFrom(items, 0)
  }

  /** The budget check fails at some setting: exactly when it fails before the last one. */
  predicate Overflows(items: seq<KeyValue>) {
    |items| > 0 && |Lines(items[..|items| - 1])| > SettingsBudget
  }

  /** `bprRule.settings()`: the accumulator loop with its `break`. */
  method SettingsString(items: seq<KeyValue>) returns (s: string)
    ensures s == SettingsText(items)
  {
    s := "";
    var i := 0;
    assert items[..0] == [];
    while i < |items|
      invariant 0 <= i <= |items|
      invariant s == Lines(items[..i])
      invariant SettingsFrom(items, i) == SettingsText(items)
      decreases |items| - i
    {
      if |s| > SettingsBudget {
        s := s + Marker;
        return;
      }
      LinesSnoc(items, i + 1);
      s := s + StringMD(items[i]) + "\n";
      i := i + 1;
    }
    assert items[..i] == items;
  }

  /** A longer prefix never has shorter lines. */
  lemma {:induction false} LinesGrow(items: seq<KeyValue>, i: nat, j: nat)
    requires i <= j <= |items|
    ensures |Lines(items[..i])| <= |Lines(items[..j])|
    decreases j - i
  {
    if i < j {
      LinesGrow(items, i, j - 1);
      LinesSnoc(items, j);
    }
  }

  /** The first `j` lines are the first `j - 1` and one more. */
  lemma LinesSnoc(items: seq<KeyValue>, j: nat)
    requires 0 < j <= |items|
    ensures Lines(items[..j]) == Lines(items[..j - 1]) + StringMD(items[j - 1]) + "\n"
  {
    assert items[..j][..j - 1] == items[..j - 1];
  }

  /** Below the budget until the end, every setting is appended. */
  lemma {:induction false} SettingsFromComplete(items: seq<KeyValue>, i: nat)
    requires i <= |items| && !Overflows(items)
    ensures SettingsFrom(items, i) == Lines(items)
    decreases |items| - i
  {
    assert items[..|items|] == items;
    if i < |items| {
      LinesGrow(items, i, |items| - 1);
      SettingsFromComplete(items, i + 1);
    }
  }

  /** The loop breaks after `k` settings: the first `k` lines exceed the budget and the first `k - 1` do not. */
  predicate CutAt(items: seq<KeyValue>, k: int) {
    0 < k < |items| && |Lines(items[..k])| > SettingsBudget && |Lines(items[..k - 1])| <= SettingsBudget
  }

  /**
   * Past the budget, the text stops after the first prefix of the settings that
   * exceeds it, followed by the marker.
   */
  lemma {:induction false} SettingsFromCut(items: seq<KeyValue>, i: nat)
    requires i < |items| && |Lines(items[..|items| - 1])| > SettingsBudget
    requires i == 0 || |Lines(items[..i - 1])| <= SettingsBudget
    ensures exists k :: i <= k && CutAt(items, k) && SettingsFrom(items, i) == Lines(items[..k]) + Marker
    decreases |items| - i
  {
    assert items[..0] == [];
    if |Lines(items[..i])| > SettingsBudget {
      assert i > 0;
      assert CutAt(items, i);
      assert SettingsFrom(items, i) == Lines(items[..i]) + Marker;
    } else {
      assert i + 1 < |items|;
      SettingsFromCut(items, i + 1);
      var k :| i + 1 <= k && CutAt(items, k) && SettingsFrom(items, i + 1) == Lines(items[..k]) + Marker;
      assert SettingsFrom(items, i) == SettingsFrom(items, i + 1);
    }
  }

  /** Lines end in a newline, so the marker can only come from the cut. */
  lemma LinesNoMarker(items: seq<KeyValue>)
    ensures !HasSuffix(Lines(items), Marker)
  {
    if items != [] {
      var s := Lines(items);
      assert s[|s| - 1] == '\n';
    }
  }

  /**
   * The settings text is truncated exactly when it ends with the marker, which
   * happens exactly when the budget is exceeded before the last setting; then
   * nothing is appended after the marker.
   */
  lemma SettingsTruncation(items: seq<KeyValue>)
    ensures var s := SettingsText(items);
            && (HasSuffix(s, Marker) <==> Overflows(items))
            && (!Overflows(items) ==> s == Lines(items))
            && (Overflows(items) ==>
                  exists k :: CutAt(items, k) && s == Lines(items[..k]) + Marker)
  {
    var s := SettingsText(items);
    if Overflows(items) {
      assert items[..0] == [];
      SettingsFromCut(items, 0);
      var k :| 0 <= k && CutAt(items, k) && s == Lines(items[..k]) + Marker;
      assert HasSuffix(s, Marker) by {
        assert s[|s| - |Marker|..] == Marker;
      }
    } else {
      SettingsFromComplete(items, 0);
      LinesNoMarker(items);
    }
  }

  // ---------------------------------------------------------------------------
  // The message
  // ---------------------------------------------------------------------------

  function ActionColor(action: string): int {
    if action == "created" then ColorGreen else if action == "edited" then ColorYellow else ColorRed
  }

  function ActionTitle(action: string, fullName: string): string {
    if action == "created" then "New branch protection rule: " + fullName
    else if action == "edited" then "Branch protection rule edited: " + fullName
    else "Branch protection rule deleted: " + fullName
  }

  function Description(settings: string, changes: seq<string>): string {
    var desc := "**Settings:**\n\n" + settings;
    if |changes| > 0 then desc + "\n\n**Changes:**\n\n" + Join(changes, ", ") else desc
  }

  function RuleMessage(ev: Event): (m: MessageSend)
    ensures |m.embeds| == 1 && m.content == ""
    ensures HasPrefix(m.embeds[0].description, "**Settings:**\n\n" + SettingsText(Settings(ev.rule)))
    ensures ev.changes == [] <==> m.embeds[0].description == "**Settings:**\n\n" + SettingsText(Settings(ev.rule))
  {
    DescriptionShape(SettingsText(Settings(ev.rule)), ev.changes);
    OneEmbed(Embed(ActionTitle(ev.action, ev.repo.fullName),
                   Description(SettingsText(Settings(ev.rule)), ev.changes),
                   ev.repo.htmlUrl, ActionColor(ev.action), "",
                   [Field("User", Link(ev.sender), false)], None, Some(AuthorEmbed(ev.sender))))
  }

  /** `branchProtectionRuleFn` on a decoded event. */
  method BranchProtectionRuleFn(ev: Event) returns (m: MessageSend)
    ensures m == RuleMessage(ev)
  {
    var settings := SettingsString(Settings(ev.rule));
    var changes: seq<string> := [];
    for i := 0 to |ev.changes|
      invariant changes == ev.changes[..i]
    {
      changes := changes + [ev.changes[i]];
    }
    assert changes == ev.changes;
    var desc := "**Settings:**\n\n" + settings;
    if |changes| > 0 {
      desc := desc + "\n\n**Changes:**\n\n" + Join(changes, ", ");
    }
    var e := Embed(ActionTitle(ev.action, ev.repo.fullName), desc, ev.repo.htmlUrl, ActionColor(ev.action), "",
                   [Field("User", Link(ev.sender), false)], None, Some(AuthorEmbed(ev.sender)));
    m := OneEmbed(e);
  }

  /**
   * One embed: green "New ..." for `created`, yellow "... edited: " for
   * `edited`, red "... deleted: " for anything else; the repository URL, the
   * sender as author and a single "User" field holding the sender's link.
   */
  lemma RuleMessageShape(ev: Event)
    ensures var m := RuleMessage(ev);
            && |m.embeds| == 1 && m.content == ""
            && var e := m.embeds[0];
               && e.fields == [Field("User", Link(ev.sender), false)]
               && e.url == ev.repo.htmlUrl
               && e.author == Some(AuthorEmbed(ev.sender))
               && (ev.action == "created" ==> e.color == ColorGreen && e.title == "New branch protection rule: " + ev.repo.fullName)
               && (ev.action == "edited" ==> e.color == ColorYellow && e.title == "Branch protection rule edited: " + ev.repo.fullName)
               && (ev.action != "created" && ev.action != "edited" ==>
                     e.color == ColorRed && e.title == "Branch protection rule deleted: " + ev.repo.fullName)
  {
  }

  /**
   * The description opens with the settings heading and the settings text; a
   * changes section follows exactly when there are changed keys.
   */
  lemma DescriptionShape(settings: string, changes: seq<string>)
    ensures var d := Description(settings, changes);
            && HasPrefix(d, "**Settings:**\n\n" + settings)
            && (changes == [] <==> d == "**Settings:**\n\n" + settings)
            && (changes != [] ==> HasSuffix(d, "\n\n**Changes:**\n\n" + Join(changes, ", ")))
  {
    var head := "**Settings:**\n\n" + settings;
    var d := Description(settings, changes);
    if changes != [] {
      var tail := "\n\n**Changes:**\n\n" + Join(changes, ", ");
      assert d == head + tail;
      assert d[..|head|] == head;
      assert d[|d| - |tail|..] == tail;
    }
  }
}
