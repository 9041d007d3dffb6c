/**
 * The push formatter (webserver/logos/events/push.go): one line per commit,
 * the 100-byte message cut, the 1024-byte list cap, and the branch text.
 */
module Push {
  import opened Wrappers
  import opened GoStrings
  import opened Discord
  import opened EventsCommon

  const MessageCap := 100
  const ListCap := 1024
  const NoCommits := "No commits?"
  const RefLabel := "**Ref:** "
  const BaseRefLabel := "**Base Ref:** "
  const GitHub := "https://github.com/"

  datatype Commit = Commit(id: string, message: string, timestamp: string, url: string,
                           authorName: string, authorEmail: string, authorUsername: string)

  datatype Event = Event(commits: seq<Commit>, repo: Repository, sender: User, pusherName: string,
                         pusherDescription: string, ref: string, baseRef: string)

  /** Go's `commit.ID[:7]` panics on a shorter id; every commit id must have seven bytes. */
  predicate ValidIds(cs: seq<Commit>) {
    forall i :: 0 <= i < |cs| ==> |cs[i].id| >= 7
  }

  /** Lines 46-49: the username, or the author's name when GitHub sent none. */
  function DisplayName(c: Commit): (n: string)
    ensures c.authorUsername != "" ==> n == c.authorUsername
    ensures c.authorUsername == "" ==> n == c.authorName
  {
    if c.authorUsername == "" then c.authorName else c.authorUsername
  }

  /** Lines 51-53. */
  function ShortMessage(c: Commit): string {
    Truncate(c.message, MessageCap, "...")
  }

  /** The `fmt.Sprintf` of line 55. */
  function CommitLine(c: Commit): string
    requires |c.id| >= 7
  {
    ShortMessage(c) + " [``" + c.id[..7] + "``](" + c.url + ") | [" + DisplayName(c) + "]("
    + EscapeSpaces(GitHub + DisplayName(c)) + ")\n"
  }

  /** The commit list of lines 42-56, before the cap. */
  function CommitLines(cs: seq<Commit>): string
    requires ValidIds(cs)
    decreases |cs|
  {
    if cs == [] then "" else CommitLines(cs[..|cs| - 1]) + CommitLine(cs[|cs| - 1])
  }

  /** Lines 58-64. */
  function CommitList(cs: seq<Commit>): (r: string)
    requires ValidIds(cs)
    ensures r == NoCommits <==> cs == []
    ensures cs != [] ==> |r| <= ListCap + 3
  {
    var lines := CommitLines(cs);
    CommitLinesEnd(cs);
    var l := Truncate(lines, ListCap, "...");
    assert NoCommits[|NoCommits| - 1] == '?';
    assert cs != [] ==> l[|l| - 1] != '?' by {
      if cs != [] && |lines| > ListCap { assert HasSuffix(l, "..."); }
    }
    if l == "" then NoCommits else l
  }

  /** Lines 66-70 as written: a base ref replaces the ref instead of following it. */
  function BranchInfoAsWritten(ev: Event): (b: string)
    ensures ev.baseRef == "" ==> HasPrefix(b, RefLabel + ev.ref)
    ensures ev.baseRef != "" ==> |b| > 0 && b[0] == '\n' && HasSuffix(b, BaseRefLabel + ev.baseRef)
  {
    if ev.baseRef != "" then "\n" + BaseRefLabel + ev.baseRef else RefLabel + ev.ref
  }

  /** The evidently intended branch text: the ref, then the base ref on a new line when there is one. */
  function BranchInfo(ev: Event): (b: string)
    ensures HasPrefix(b, RefLabel + ev.ref)
    ensures ev.baseRef != "" ==> HasSuffix(b, "\n" + BaseRefLabel + ev.baseRef)
  {
    var info := RefLabel + ev.ref;
    if ev.baseRef != "" then
      var tail := "\n" + BaseRefLabel + ev.baseRef;
      var b := info + tail;
      assert b[..|info|] == info && b[|b| - |tail|..] == tail;
      b
    else info
  }

  function PusherLink(name: string): string {
    "[" + name + "](" + GitHub + name + ")"
  }

  function PushEmbed(ev: Event): (e: Embed)
    requires ValidIds(ev.commits)
    ensures |e.fields| == 4 && e.url == ev.repo.htmlUrl
    ensures HasPrefix(e.fields[0].value, RefLabel + ev.ref)
    ensures e.fields[1].value == NoCommits <==> ev.commits == []
    ensures ev.commits != [] ==> |e.fields[1].value| <= ListCap + 3
  {
    Embed("Push on " + ev.repo.fullName, "", ev.repo.htmlUrl, ColorGreen, "",
          [Field("Branch", BranchInfo(ev), false),
           Field("Commits", CommitList(ev.commits), false),
           Field("Commit Sender", Link(ev.sender), true),
           Field("Pusher", PusherLink(ev.pusherName), true)],
          None, Some(AuthorEmbed(ev.sender)))
  }

  /** One pass of the loop body of lines 43-56 on its copy of the commit. */
  method FormatCommit(commit: Commit) returns (line: string)
    requires |commit.id| >= 7
    ensures line == CommitLine(commit)
  {
    var c := commit;
    if c.authorUsername == "" {
      c := c.(authorUsername := c.authorName);
    }
    if |c.message| > MessageCap {
      c := c.(message := c.message[..MessageCap] + "...");
    }
    line := c.message + " [``" + c.id[..7] + "``](" + c.url + ") | [" + c.authorUsername + "]("
            + EscapeSpaces(GitHub + c.authorUsername) + ")\n";
  }

  /** The loop of lines 42-56: one formatted line per commit, in order. */
  method FormatCommits(cs: seq<Commit>) returns (commitList: string)
    requires ValidIds(cs)
    ensures commitList == CommitLines(cs)
  {
    commitList := "";
    for i := 0 to |cs|
      invariant ValidIds(cs[..i])
      invariant commitList == CommitLines(cs[..i])
    {
      var line := FormatCommit(cs[i]);
      assert cs[..i + 1][..i] == cs[..i];
      commitList := commitList + line;
    }
    assert cs[..|cs|] == cs;
  }

  /** Lines 58-64: the list capped at 1024 bytes, or the placeholder when it is empty. */
  method CapCommitList(ghost cs: seq<Commit>, lines: string) returns (commitList: string)
    requires ValidIds(cs) && lines == CommitLines(cs)
    ensures commitList == CommitList(cs)
  {
    commitList := lines;
    if |commitList| > ListCap {
      commitList := commitList[..ListCap] + "...";
    }
    if commitList == "" {
      commitList := NoCommits;
    }
  }

  /** Lines 66-70 as intended: the ref, then the base ref on its own line. */
  method FormatBranchInfo(ev: Event) returns (branchInfo: string)
    ensures branchInfo == BranchInfo(ev)
  {
    branchInfo := RefLabel + ev.ref;
    if ev.baseRef != "" {
      branchInfo := branchInfo + "\n" + BaseRefLabel + ev.baseRef;
    }
  }

  /** `pushFn` on a decoded event, with the branch text as intended. */
  method PushFn(ev: Event) returns (m: MessageSend)
    requires ValidIds(ev.commits)
    ensures m == OneEmbed(PushEmbed(ev))
  {
    var lines := FormatCommits(ev.commits);
    var commitList := CapCommitList(ev.commits, lines);
    var branchInfo := FormatBranchInfo(ev);
    m := OneEmbed(Embed("Push on " + ev.repo.fullName, "", ev.repo.htmlUrl, ColorGreen, "",
                        [Field("Branch", branchInfo, false),
                         Field("Commits", commitList, false),
                         Field("Commit Sender", Link(ev.sender), true),
                         Field("Pusher", PusherLink(ev.pusherName), true)],
                        None, Some(AuthorEmbed(ev.sender))));
  }

  // ---------------------------------------------------------------------------
  // Properties
  // ---------------------------------------------------------------------------

  /**
   * A commit's line: its message cut to at most 103 bytes, the seven-byte short
   * id linking to the commit, the author's display name, and a final newline.
   */
  lemma CommitLineShape(c: Commit)
    requires |c.id| >= 7
    ensures |ShortMessage(c)| <= MessageCap + 3
    ensures |c.message| <= MessageCap ==> ShortMessage(c) == c.message
    ensures HasPrefix(CommitLine(c), ShortMessage(c) + " [``" + c.id[..7] + "``](" + c.url + ") | [" + DisplayName(c) + "](")
    ensures HasSuffix(CommitLine(c), ")\n")
  {
    var head := ShortMessage(c) + " [``" + c.id[..7] + "``](" + c.url + ") | [" + DisplayName(c) + "](";
    var mid := EscapeSpaces(GitHub + DisplayName(c));
    var l := CommitLine(c);
    assert l == head + mid + ")\n";
    assert l[..|head|] == head;
    assert l[|l| - 2..] == ")\n";
  }

  /** The lines follow the commits' order: the list of a concatenation is the concatenation of the lists. */
  lemma {:induction false} CommitLinesConcat(a: seq<Commit>, b: seq<Commit>)
    requires ValidIds(a) && ValidIds(b)
    ensures ValidIds(a + b)
    ensures CommitLines(a + b) == CommitLines(a) + CommitLines(b)
    decreases |b|
  {
    assert forall i :: 0 <= i < |a + b| ==> (a + b)[i] == if i < |a| then a[i] else b[i - |a|];
    if b == [] {
      assert a + b == a;
    } else {
      var b' := b[..|b| - 1];
      assert ValidIds(b');
      assert (a + b)[..|a + b| - 1] == a + b';
      CommitLinesConcat(a, b');
    }
  }

  /** Each commit adds one line ending in a newline, so a non-empty list ends with one. */
  lemma CommitLinesEnd(cs: seq<Commit>)
    requires ValidIds(cs)
    ensures var l := CommitLines(cs); cs != [] ==> |l| > 0 && l[|l| - 1] == '\n'
  {
    if cs != [] {
      var c := cs[|cs| - 1];
      CommitLineShape(c);
      var l := CommitLines(cs);
      var last := CommitLine(c);
      assert l[|l| - 1] == last[|last| - 1];
    }
  }

  /** The list is "No commits?" exactly when there are no commits; otherwise it is at most 1027 bytes. */
  lemma CommitListShape(cs: seq<Commit>)
    requires ValidIds(cs)
    ensures CommitList(cs) == NoCommits <==> cs == []
    ensures cs != [] ==> |CommitList(cs)| <= ListCap + 3
    ensures |CommitLines(cs)| <= ListCap ==> cs != [] ==> CommitList(cs) == CommitLines(cs)
  {
    if cs != [] {
      CommitLinesEnd(cs);
      var l := CommitLines(cs);
      var t := Truncate(l, ListCap, "...");
      if |l| > ListCap {
        assert t[|t| - 1] == '.';
      } else {
        assert t[|t| - 1] == '\n';
      }
      assert NoCommits[|NoCommits| - 1] == '?';
    }
  }

  /** As written, a base ref hides the ref: two pushes that differ only in the ref get the same branch text. */
  lemma BaseRefHidesRef(ev: Event, otherRef: string)
    requires ev.baseRef != ""
    ensures BranchInfoAsWritten(ev) == BranchInfoAsWritten(ev.(ref := otherRef))
    ensures ev.ref != otherRef ==> BranchInfo(ev) != BranchInfo(ev.(ref := otherRef))
  {
    var x := BranchInfo(ev);
    var y := BranchInfo(ev.(ref := otherRef));
    var tail := "\n" + BaseRefLabel + ev.baseRef;
    assert x == RefLabel + ev.ref + tail;
    assert y == RefLabel + otherRef + tail;
    if ev.ref != otherRef {
      if |ev.ref| == |otherRef| {
        var i :| 0 <= i < |ev.ref| && ev.ref[i] != otherRef[i];
        assert x[9 + i] == ev.ref[i] && y[9 + i] == otherRef[i];
      } else {
        assert |x| != |y|;
      }
    }
  }

  /** As intended, the branch text always opens with the ref, and ends with the base ref when there is one. */
  lemma BranchInfoShape(ev: Event)
    ensures HasPrefix(BranchInfo(ev), RefLabel + ev.ref)
    ensures ev.baseRef != "" ==> HasSuffix(BranchInfo(ev), "\n" + BaseRefLabel + ev.baseRef)
    ensures ev.baseRef == "" ==> BranchInfo(ev) == BranchInfoAsWritten(ev)
  {
    var info := RefLabel + ev.ref;
    var b := BranchInfo(ev);
    assert b[..|info|] == info;
    if ev.baseRef != "" {
      var tail := "\n" + BaseRefLabel + ev.baseRef;
      assert b == info + tail;
      assert b[|b| - |tail|..] == tail;
    }
  }

  /** One green embed with four fields in order; only the sender and pusher fields are inline. */
  lemma PushEmbedShape(ev: Event)
    requires ValidIds(ev.commits)
    ensures var e := PushEmbed(ev);
            && FieldNames(e.fields) == ["Branch", "Commits", "Commit Sender", "Pusher"]
            && !e.fields[0].inline && !e.fields[1].inline && e.fields[2].inline && e.fields[3].inline
            && e.color == ColorGreen && e.title == "Push on " + ev.repo.fullName
            && e.author == Some(AuthorEmbed(ev.sender))
  {
    var e := PushEmbed(ev);
    assert FieldNames(e.fields) == ["Branch", "Commits", "Commit Sender", "Pusher"];
  }
}
