/**
 * The Dependabot alert formatter (webserver/events/dependabot_alert.go): the
 * colour, and the details, summary, vulnerabilities and dismissal texts built
 * step by step and capped at 1020 bytes plus "...".
 */
module DependabotAlert {
  import opened Wrappers
  import opened GoStrings
  import opened Discord
  import opened EventsCommon

  /** Each field text longer than this is cut to it and "..." appended. */
  const FieldCap := 1020

  /** The advisory description contributes at most this many bytes. */
  const DescriptionCap := 996

  const RuntimeWarning := " (this could be a highly critical vulnerability; runtime dependencies may not be checked by Dependabot)"

  /** The headings of the detail lines. */
  const ScopeHeading := "\n**Scope:** "
  const ManifestHeading := "\n**Manifest Path:** "
  const SeverityHeading := "\n**Severity:** "
  const GhsaHeading := "\n**GHSA ID:** "
  const CveHeading := "\n**CVE:** CVE "
  const FixHeading := "\n**Could be fixed by resolving:** "

  datatype Vulnerability = Vulnerability(severity: string, vulnerableVersionRange: string, firstPatchedVersion: string)

  datatype Alert = Alert(
    htmlUrl: string,
    state: string,
    packageName: string,
    ecosystem: string,
    manifestPath: string,
    scope: string,
    severity: string,
    ghsaId: string,
    cveId: string,
    summary: string,
    description: string,
    vulnerabilities: seq<Vulnerability>,
    dismissedReason: string,
    dismissedBy: User)

  datatype Event = Event(action: string, repo: Repository, sender: User, alert: Alert)

  /** `d += heading + value` when the value is present; the text so far is kept. */
  function AddOpt(d: string, heading: string, value: string): (r: string)
    ensures HasPrefix(r, d)
  {
    if value == "" then d else
      assert (d + heading + value)[..|d|] == d;
      d + heading + value
  }

  predicate HighSeverity(severity: string) {
    severity == "high" || severity == "critical"
  }

  function AlertColor(ev: Event): int {
    if HighSeverity(ev.alert.severity) then ColorDarkRed
    else if ev.action == "closed" then ColorRed
    else ColorGreen
  }

  /** Lines 58-64: the scope, and the runtime warning after it. */
  function AddScope(d: string, scope: string): (r: string)
    ensures HasPrefix(r, d)
  {
    if scope == "" then d
    else
      var withScope := d + ScopeHeading + scope;
      assert withScope[..|d|] == d;
      if scope == "runtime" then
        assert (withScope + RuntimeWarning)[..|d|] == d;
        withScope + RuntimeWarning
      else withScope
  }

  /** Lines 86-88. */
  function AddFix(d: string, a: Alert): (r: string)
    ensures HasPrefix(r, d)
  {
    if a.state == "fixed" then
      var r := d + FixHeading + a.packageName + " " + a.ghsaId;
      assert r[..|d|] == d;
      r
    else d
  }

  function DetailsHead(a: Alert): string {
    a.packageName + " (" + a.ecosystem + ")"
  }

  /** The details of lines 56-88, before the cap: the optional lines, in order, after the package. */
  function Details(a: Alert): string {
    var d0 := AddScope(DetailsHead(a), a.scope);
    var d1 := AddOpt(d0, ManifestHeading, a.manifestPath);
    var d2 := AddOpt(d1, SeverityHeading, a.severity);
    var d3 := AddOpt(d2, GhsaHeading, a.ghsaId);
    var d4 := AddOpt(d3, CveHeading, a.cveId);
    AddFix(d4, a)
  }

  /** Lines 100-106: the description, itself cut at 996 bytes. */
  function AddDescription(d: string, description: string): string {
    if description == "" then d
    else if |description| > DescriptionCap then d + "\n\n" + description[..DescriptionCap] + "..."
    else d + "\n\n" + description
  }

  /** The summary of lines 94-106, before the cap. */
  function Summary(a: Alert): string {
    AddDescription(AddOpt("", "\n**Summary:** ", a.summary), a.description)
  }

  function VulnLine(v: Vulnerability): string {
    "\n**Severity:** " + v.severity + "\n**Vulnerable Version Range:** " + v.vulnerableVersionRange
    + "\n**First Patched Version:** " + v.firstPatchedVersion + "\n"
  }

  /** The vulnerabilities of lines 112-116, one block each in order, before the cap. */
  function Vulns(vs: seq<Vulnerability>): string
    decreases |vs|
  {
    if vs == [] then "" else Vulns(vs[..|vs| - 1]) + VulnLine(vs[|vs| - 1])
  }

  function ReasonLine(a: Alert): string {
    AddOpt("", "\n**Dismissed Reason:** ", a.dismissedReason)
  }

  function AddDismisser(d: string, a: Alert): string {
    if a.dismissedBy.login != "" then d + "\n**Dismissed By:** " + Link(a.dismissedBy) else d
  }

  function OrNotDismissed(d: string): string {
    if d == "" then "Not dismissed" else d
  }

  /** `if len(s) > 1020 { s = s[:1020] + "..." }`. */
  function Cap(s: string): string {
    Truncate(s, FieldCap, "...")
  }

  /** Lines 122-138 as written: an over-long reason has its own first 1020 bytes appended to it. */
  function DismissedAsWritten(a: Alert): (r: string)
    ensures r != ""
    ensures |ReasonLine(a)| <= FieldCap ==> r == Dismissed(a)
    ensures |ReasonLine(a)| > FieldCap ==> |r| > FieldCap + 3
  {
    var r := ReasonLine(a);
    var r' := if |r| > FieldCap then r + r[..FieldCap] + "..." else r;
    OrNotDismissed(AddDismisser(r', a))
  }

  /** The evidently intended dismissal text: the reason capped like every other field. */
  function Dismissed(a: Alert): (r: string)
    ensures r != ""
    ensures a.dismissedBy.login == "" ==> |r| <= FieldCap + 3
  {
    OrNotDismissed(AddDismisser(Cap(ReasonLine(a)), a))
  }

  /** The card of lines 140-180 around its four computed texts. */
  function AlertCard(ev: Event, details: string, summary: string, vulns: string, dismissed: string): (e: Embed)
    ensures |e.fields| == 6 && e.fields[1].value == ev.alert.state
    ensures e.fields[2].value == details && e.fields[3].value == summary
    ensures e.fields[4].value == vulns && e.fields[5].value == dismissed
    ensures forall i :: 0 <= i < |e.fields| ==> e.fields[i].inline
    ensures e.url == ev.alert.htmlUrl && e.color == AlertColor(ev)
  {
    var a := ev.alert;
    Embed("Dependabot Alert on " + ev.repo.fullName + " " + a.state, "", a.htmlUrl, AlertColor(ev), "",
          [Field("URL", "[Click here]" + "(" + a.htmlUrl + ")", true),
           Field("State", a.state, true),
           Field("Details", details, true),
           Field("Summary", summary, true),
           Field("Vulnerabilities", vulns, true),
           Field("Dismissal Details", dismissed, true)],
          None, None)
  }

  function AlertEmbed(ev: Event): (e: Embed)
    ensures |e.fields| == 6 && forall i :: 0 <= i < |e.fields| ==> e.fields[i].inline
    ensures |e.fields[2].value| <= FieldCap + 3 && |e.fields[3].value| <= FieldCap + 3 && |e.fields[4].value| <= FieldCap + 3
    ensures ev.alert.dismissedBy.login == "" ==> |e.fields[5].value| <= FieldCap + 3
    ensures e.url == ev.alert.htmlUrl && e.color == AlertColor(ev) && e.fields[1].value == ev.alert.state
  {
    var a := ev.alert;
    var details, summary, vulns := Cap(Details(a)), Cap(Summary(a)), Cap(Vulns(a.vulnerabilities));
    assert |details| <= FieldCap + 3 && |summary| <= FieldCap + 3 && |vulns| <= FieldCap + 3;
    AlertCard(ev, details, summary, vulns, Dismissed(a))
  }

  /** One `if value != "" { d += heading + value }` step. */
  method AppendOpt(d: string, heading: string, value: string) returns (r: string)
    ensures r == AddOpt(d, heading, value)
  {
    r := d;
    if value != "" {
      r := r + heading + value;
    }
  }

  /** Lines 56-64: the package line, then the scope and its runtime warning. */
  method BuildScope(a: Alert) returns (details: string)
    ensures details == AddScope(DetailsHead(a), a.scope)
  {
    details := a.packageName + " (" + a.ecosystem + ")";
    if a.scope != "" {
      details := details + ScopeHeading + a.scope;
      if a.scope == "runtime" {
        details := details + RuntimeWarning;
      }
    }
  }

  /** Lines 49-92: the colour and the details, reassigned step by step. */
  method BuildDetails(ev: Event) returns (color: int, details: string)
    ensures color == AlertColor(ev) && details == Cap(Details(ev.alert))
  {
    var a := ev.alert;
    color := if ev.action == "closed" then ColorRed else ColorGreen;
    details := BuildScope(a);
    details := AppendOpt(details, ManifestHeading, a.manifestPath);
    if a.severity != "" {
      details := details + SeverityHeading + a.severity;
      if a.severity == "high" || a.severity == "critical" {
        color := ColorDarkRed;
      }
    }
    details := AppendOpt(details, GhsaHeading, a.ghsaId);
    details := AppendOpt(details, CveHeading, a.cveId);
    if a.state == "fixed" {
      details := details + FixHeading + a.packageName + " " + a.ghsaId;
    }
    if |details| > FieldCap {
      details := details[..FieldCap] + "...";
    }
  }

  /** Lines 94-110. */
  method BuildSummary(a: Alert) returns (summaryDet: string)
    ensures summaryDet == Cap(Summary(a))
  {
    summaryDet := "";
    if a.summary != "" {
      summaryDet := summaryDet + "\n**Summary:** " + a.summary;
    }
    if a.description != "" {
      if |a.description| > DescriptionCap {
        summaryDet := summaryDet + "\n\n" + a.description[..DescriptionCap] + "...";
      } else {
        summaryDet := summaryDet + "\n\n" + a.description;
      }
    }
    if |summaryDet| > FieldCap {
      summaryDet := summaryDet[..FieldCap] + "...";
    }
  }

  /** Lines 112-120: the loop over the vulnerabilities. */
  method BuildVulns(vs: seq<Vulnerability>) returns (vulns: string)
    ensures vulns == Cap(Vulns(vs))
  {
    vulns := "";
    for i := 0 to |vs|
      invariant vulns == Vulns(vs[..i])
    {
      assert vs[..i + 1][..i] == vs[..i];
      vulns := vulns + VulnLine(vs[i]);
    }
    assert vs[..|vs|] == vs;
    if |vulns| > FieldCap {
      vulns := vulns[..FieldCap] + "...";
    }
  }

  /** Lines 122-138, with the reason replaced by its capped form. */
  method BuildDismissed(a: Alert) returns (dismissed: string)
    ensures dismissed == Dismissed(a)
  {
    dismissed := "";
    if a.dismissedReason != "" {
      dismissed := dismissed + "\n**Dismissed Reason:** " + a.dismissedReason;
    }
    if |dismissed| > FieldCap {
      dismissed := dismissed[..FieldCap] + "...";
    }
    if a.dismissedBy.login != "" {
      dismissed := dismissed + "\n**Dismissed By:** " + Link(a.dismissedBy);
    }
    if dismissed == "" {
      dismissed := "Not dismissed";
    }
  }

  /** `dependabotAlertFn` on a decoded event, with the corrected dismissal cap. */
  method DependabotAlertFn(ev: Event) returns (m: MessageSend)
    ensures m == OneEmbed(AlertEmbed(ev))
  {
    var a := ev.alert;
    var color, details := BuildDetails(ev);
    var summaryDet := BuildSummary(a);
    var vulns := BuildVulns(a.vulnerabilities);
    var dismissed := BuildDismissed(a);
    m := OneEmbed(Embed("Dependabot Alert on " + ev.repo.fullName + " " + a.state, "", a.htmlUrl, color, "",
                        [Field("URL", "[Click here]" + "(" + a.htmlUrl + ")", true),
                         Field("State", a.state, true),
                         Field("Details", details, true),
                         Field("Summary", summaryDet, true),
                         Field("Vulnerabilities", vulns, true),
                         Field("Dismissal Details", dismissed, true)],
                        None, None));
  }

  // ---------------------------------------------------------------------------
  // Properties
  // ---------------------------------------------------------------------------

  /**
   * Dark red exactly for a high or critical advisory; otherwise red exactly for
   * a closed alert, and green for anything else.
   */
  lemma ColorRule(ev: Event)
    ensures AlertColor(ev) == ColorDarkRed <==> HighSeverity(ev.alert.severity)
    ensures AlertColor(ev) == ColorRed <==> !HighSeverity(ev.alert.severity) && ev.action == "closed"
    ensures AlertColor(ev) == ColorGreen <==> !HighSeverity(ev.alert.severity) && ev.action != "closed"
  {
  }

  lemma PrefixTrans(a: string, b: string, c: string)
    requires HasPrefix(c, b) && HasPrefix(b, a)
    ensures HasPrefix(c, a)
  {
    assert c[..|a|] == c[..|b|][..|a|];
  }

  /** The details open with the package and its ecosystem, then the scope line; later lines only append. */
  lemma DetailsShape(a: Alert)
    ensures HasPrefix(Details(a), AddScope(DetailsHead(a), a.scope))
    ensures HasPrefix(Details(a), DetailsHead(a))
  {
    var d0 := AddScope(DetailsHead(a), a.scope);
    var d1 := AddOpt(d0, ManifestHeading, a.manifestPath);
    var d2 := AddOpt(d1, SeverityHeading, a.severity);
    var d3 := AddOpt(d2, GhsaHeading, a.ghsaId);
    var d4 := AddOpt(d3, CveHeading, a.cveId);
    var full := Details(a);
    assert full == AddFix(d4, a);
    PrefixTrans(d0, d1, d2);
    PrefixTrans(d0, d2, d3);
    PrefixTrans(d0, d3, d4);
    PrefixTrans(d0, d4, full);
    PrefixTrans(DetailsHead(a), d0, full);
  }

  /** The runtime warning follows the scope exactly for a runtime scope. */
  lemma ScopeWarning(d: string, scope: string)
    ensures scope == "runtime" ==> AddScope(d, scope) == d + "\n**Scope:** runtime" + RuntimeWarning
    ensures scope != "runtime" ==> AddScope(d, scope) == AddOpt(d, ScopeHeading, scope)
  {
  }

  /** Every capped text is at most 1023 bytes long, and left alone when it fits. */
  lemma FieldsCapped(ev: Event)
    ensures var fs := AlertEmbed(ev).fields;
            && |fs[2].value| <= FieldCap + 3 && |fs[3].value| <= FieldCap + 3 && |fs[4].value| <= FieldCap + 3
            && (|Details(ev.alert)| <= FieldCap ==> fs[2].value == Details(ev.alert))
            && (|Summary(ev.alert)| <= FieldCap ==> fs[3].value == Summary(ev.alert))
            && (|Vulns(ev.alert.vulnerabilities)| <= FieldCap ==> fs[4].value == Vulns(ev.alert.vulnerabilities))
  {
  }

  /** An over-long advisory description contributes its first 996 bytes and "...", at the end of the summary. */
  lemma DescriptionCut(a: Alert)
    requires |a.description| > DescriptionCap
    ensures HasSuffix(Summary(a), "\n\n" + a.description[..DescriptionCap] + "...")
    ensures |Summary(a)| == |AddOpt("", "\n**Summary:** ", a.summary)| + 2 + DescriptionCap + 3
  {
    var head := AddOpt("", "\n**Summary:** ", a.summary);
    var tail := "\n\n" + a.description[..DescriptionCap] + "...";
    var s := Summary(a);
    assert s == head + tail;
    assert s[|s| - |tail|..] == tail;
  }

  /** No vulnerability, no text. */
  lemma VulnsEmptyIff(vs: seq<Vulnerability>)
    ensures Vulns(vs) == "" <==> vs == []
  {
    if vs != [] {
      assert |VulnLine(vs[|vs| - 1])| > 0;
    }
  }

  /** The dismissal text is "Not dismissed" exactly when there is neither a reason nor a dismisser. */
  lemma NotDismissedIff(a: Alert)
    ensures Dismissed(a) == "Not dismissed" <==> a.dismissedReason == "" && a.dismissedBy.login == ""
    ensures DismissedAsWritten(a) == "Not dismissed" <==> a.dismissedReason == "" && a.dismissedBy.login == ""
  {
    var r := ReasonLine(a);
    var t := Cap(r);
    var r' := if |r| > FieldCap then r + r[..FieldCap] + "..." else r;
    if a.dismissedReason != "" {
      assert r[0] == '\n';
      assert t[0] == '\n';
      assert AddDismisser(t, a)[0] == '\n';
      assert AddDismisser(r', a)[0] == '\n';
    } else if a.dismissedBy.login != "" {
      assert r == "" && t == "" && r' == "";
      assert AddDismisser(t, a)[0] == '\n';
      assert AddDismisser(r', a)[0] == '\n';
    }
  }

  /** With the cap as intended, the reason part is at most 1023 bytes and the dismisser line follows it. */
  lemma DismissedCapped(a: Alert)
    requires a.dismissedReason != "" || a.dismissedBy.login != ""
    ensures var t := Cap(ReasonLine(a));
            && |t| <= FieldCap + 3
            && Dismissed(a) == AddDismisser(t, a)
  {
    NotDismissedIff(a);
  }

  /**
   * As written, a 1000-byte reason is not cut: the text grows to 2046 bytes,
   * the 1023-byte reason line followed by its own first 1020 bytes and "...".
   */
  lemma DismissedAsWrittenGrows(a: Alert)
    requires |a.dismissedReason| == 1000 && a.dismissedBy.login == ""
    ensures |DismissedAsWritten(a)| == 2046
    ensures |Dismissed(a)| == FieldCap + 3
  {
    var r := ReasonLine(a);
    assert |r| == 1023;
    NotDismissedIff(a);
  }

  /** Six inline fields, in order, under the repository and state title, whatever the four computed texts are. */
  lemma CardShape(ev: Event, details: string, summary: string, vulns: string, dismissed: string)
    ensures var e := AlertCard(ev, details, summary, vulns, dismissed);
            && FieldNames(e.fields) == ["URL", "State", "Details", "Summary", "Vulnerabilities", "Dismissal Details"]
            && (forall i :: 0 <= i < |e.fields| ==> e.fields[i].inline)
            && e.title == "Dependabot Alert on " + ev.repo.fullName + " " + ev.alert.state
            && e.url == ev.alert.htmlUrl && e.color == AlertColor(ev)
  {
    var e := AlertCard(ev, details, summary, vulns, dismissed);
    assert FieldNames(e.fields) == ["URL", "State", "Details", "Summary", "Vulnerabilities", "Dismissal Details"];
  }

  /** The alert's own card. */
  lemma MessageShape(ev: Event)
    ensures var e := AlertEmbed(ev);
            && FieldNames(e.fields) == ["URL", "State", "Details", "Summary", "Vulnerabilities", "Dismissal Details"]
            && (forall i :: 0 <= i < |e.fields| ==> e.fields[i].inline)
            && e.title == "Dependabot Alert on " + ev.repo.fullName + " " + ev.alert.state
            && e.url == ev.alert.htmlUrl && e.color == AlertColor(ev)
  {
    var a := ev.alert;
    CardShape(ev, Cap(Details(a)), Cap(Summary(a)), Cap(Vulns(a.vulnerabilities)), Dismissed(a));
  }
}
