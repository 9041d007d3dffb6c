/**
 * Shared helpers of the event formatters (webserver/events/internal_common__.go):
 * the embed colors, the key set of the dispatch table, the GitHub user and
 * repository records and their Markdown helpers, and the `KeyValue` pair.
 */
module EventsCommon {
  import opened Discord
  import opened GoStrings

  const ColorGreen: int := 0x00ff1a
  const ColorYellow: int := 0xffff00
  const ColorRed: int := 0xff0000
  const ColorDarkRed: int := 0x8b0000

  /** The event kinds with a dedicated formatter, in the order the table lists them. */
  const SupportedEventList: seq<string> := [
    "branch_protection_rule", "check_suite", "create", "issues", "issue_comment",
    "pull_request", "pull_request_review_comment", "push", "star", "status",
    "release", "commit_comment", "deployment", "deployment_status", "workflow_run",
    "dependabot_alert", "delete", "workflow_job", "check_run", "public",
    "watch", "repository", "team", "fork"]

  /** Whether `SupportedEvents` has a key `kind`. */
  predicate Supported(kind: string) {
    kind in SupportedEventList
  }

  /** The table has 24 entries, among them the three formatters modelled here. */
  lemma SupportedEventsListed()
    ensures |SupportedEventList| == 24
    ensures Supported("branch_protection_rule") && Supported("push") && Supported("dependabot_alert")
  {
    assert SupportedEventList[7] == "push" && SupportedEventList[15] == "dependabot_alert";
  }

  /** "ping" is answered before dispatch; "discussion", "discussion_comment" and "page_build" have no entry. */
  lemma SupportedEventsAbsent()
    ensures !Supported("ping") && !Supported("page_build")
  {
  }

  lemma DiscussionUnsupported()
    ensures !Supported("discussion") && !Supported("discussion_comment")
  {
  }

  datatype User = User(login: string, id: int, avatarUrl: string, url: string, htmlUrl: string, organizationsUrl: string)

  datatype Repository = Repository(
    id: int,
    name: string,
    fullName: string,
    description: string,
    url: string,
    owner: User,
    htmlUrl: string,
    commitsUrl: string,
    private: bool)

  /** `User.AuthorEmbed`: the login becomes the author name and the avatar its icon; no link. */
  function AuthorEmbed(u: User): (a: Author)
    ensures a.name == u.login && a.iconUrl == u.avatarUrl && a.url == ""
  {
    Author(u.login, "", u.avatarUrl)
  }

  /** `User.Link`: a Markdown link whose text is the login with spaces escaped. */
  function Link(u: User): string {
    "[" + EscapeSpaces(u.login) + "](" + u.htmlUrl + ")"
  }

  /** The link is the escaped login in brackets followed by the profile URL in parentheses, with no space in its text. */
  lemma LinkShape(u: User)
    ensures var r := Link(u);
            && |r| == |EscapeSpaces(u.login)| + |u.htmlUrl| + 4
            && HasPrefix(r, "[") && HasSuffix(r, "](" + u.htmlUrl + ")")
            && r[1..|r| - |u.htmlUrl| - 3] == EscapeSpaces(u.login)
            && ' ' !in r[..|r| - |u.htmlUrl| - 3]
  {
    var text := EscapeSpaces(u.login);
    var head := "[" + text;
    var tail := "](" + u.htmlUrl + ")";
    var r := Link(u);
    assert r == head + tail;
    assert r[..|head|] == head && r[|head|..] == tail;
    assert head[1..] == text;
  }

  /** Two users with the same profile URL whose logins escape alike get the same link. */
  lemma LinkDeterminedByEscapedLogin(u: User, v: User)
    requires EscapeSpaces(u.login) == EscapeSpaces(v.login) && u.htmlUrl == v.htmlUrl
    ensures Link(u) == Link(v)
  {
  }

  /** `Repository.Commit`: a short-id Markdown link to the commit page. Go's `id[:7]` panics on a shorter id. */
  function Commit(r: Repository, id: string): (link: string)
    requires |id| >= 7
    ensures HasPrefix(link, "[" + id[..7] + "](" + r.htmlUrl)
    ensures HasSuffix(link, "/commit/" + id + ")")
    ensures |link| == |id| + |r.htmlUrl| + 19
  {
    "[" + id[..7] + "](" + r.htmlUrl + "/commit/" + id + ")"
  }

  /** `Repository.Visibility`. */
  function Visibility(r: Repository): (v: string)
    ensures v == "Private" <==> r.private
    ensures v == "Public" <==> !r.private
  {
    if r.private then "Private" else "Public"
  }

  /** The dynamic values the formatters put into a `KeyValue`. */
  datatype GoValue = VBool(b: bool) | VInt(i: int) | VStr(s: string)

  /** `fmt.Sprint` of one operand: `true`/`false`, decimal, or the string itself. */
  function Sprint(v: GoValue): (r: string)
    ensures v.VStr? ==> r == v.s
    ensures v.VBool? ==> (r == "true" <==> v.b) && (r == "false" <==> !v.b)
    ensures v.VInt? ==> |r| >= 1 && ((r[0] == '-') <==> v.i < 0)
  {
    match v
    case VBool(b) => if b then "true" else "false"
    case VInt(i) => IntToString(i)
    case VStr(s) => s
  }

  datatype KeyValue = KeyValue(key: string, value: GoValue)

  /** `KeyValue.String`. */
  function KeyValueString(kv: KeyValue): (r: string)
    ensures HasPrefix(r, kv.key + " => ") && HasSuffix(r, Sprint(kv.value))
    ensures |r| == |kv.key| + 4 + |Sprint(kv.value)|
  {
    kv.key + " => " + Sprint(kv.value)
  }

  /** `KeyValue.StringMD`: the key in bold. */
  function StringMD(kv: KeyValue): (r: string)
    ensures HasPrefix(r, "**" + kv.key + "** => ") && HasSuffix(r, Sprint(kv.value))
  {
    "**" + kv.key + "**" + " => " + Sprint(kv.value)
  }

  /** The Markdown form is the plain form with the key wrapped in `**`. */
  lemma StringMDBoldsKey(kv: KeyValue)
    ensures StringMD(kv) == "**" + kv.key + "**" + KeyValueString(kv)[|kv.key|..]
    ensures |StringMD(kv)| == |KeyValueString(kv)| + 4
  {
    var s := KeyValueString(kv);
    assert s[|kv.key|..] == " => " + Sprint(kv.value);
  }
}
