/**
 * The discussion formatter (webserver/events/discussion.go): one embed per
 * action, with the title and body cuts, the lock texts, the label flag and the
 * fallback for an action it does not know.
 */
module Discussion {
  import opened Wrappers
  import opened GoStrings
  import opened Discord
  import opened EventsCommon

  const TitleCap := 190
  const BodyCap := 3000
  const ReasonCap := 999

  datatype Label = Label(name: string, isDefault: bool, description: string)

  datatype Category = Category(name: string, answerable: bool, description: string)

  /** `discussionDate` is the creation time already in RFC 3339 form. */
  datatype Thread = Thread(
    title: string,
    author: User,
    created: string,
    answerSubmitter: User,
    activeLockReason: string,
    answerHtmlUrl: string,
    answerRespBody: string,
    category: Category,
    discussionDate: string,
    discussionUrl: string)

  datatype Event = Event(action: string, repo: Repository, sender: User, tag: Label, discussion: Thread)

  /** The link most cuts end with. */
  function ViewSuffix(url: string): string {
    "... [View Discussion](" + url + ")"
  }

  /** The title as every case but `closed` and `deleted` shows it. */
  function CutTitle(d: Thread): string {
    Truncate(d.title, TitleCap, ViewSuffix(d.discussionUrl))
  }

  /** The body cut of the answered, created, edited, pinned and unpinned cases. */
  function CutBody(d: Thread): string {
    Truncate(d.answerRespBody, BodyCap, ViewSuffix(d.discussionUrl))
  }

  /** Lines 53-59. */
  function LockText(d: Thread): string {
    if d.activeLockReason != "" then "Discussion is now Closed: " + d.activeLockReason
    else "Discussion is still open for comments"
  }

  /**
   * Lines 414-422 as written: an over-long reason is replaced by the first 999
   * bytes of the answer body, and the slice panics (None) when the body is shorter.
   */
  function LockedReasonAsWritten(d: Thread): (r: Option<string>)
    ensures r.None? <==> |d.activeLockReason| > ReasonCap && |d.answerRespBody| < ReasonCap
    ensures |d.activeLockReason| <= ReasonCap ==> r == Some(LockedReason(d))
  {
    if d.activeLockReason == "" then Some("No reason provided")
    else if |d.activeLockReason| > ReasonCap then
      if |d.answerRespBody| < ReasonCap then None
      else Some(d.answerRespBody[..ReasonCap] + ViewSuffix(d.discussionUrl))
    else Some(d.activeLockReason)
  }

  /** The evidently intended reason text: the reason itself, cut at 999 bytes. */
  function LockedReason(d: Thread): (r: string)
    ensures d.activeLockReason == "" ==> r == "No reason provided"
    ensures 0 < |d.activeLockReason| <= ReasonCap ==> r == d.activeLockReason
    ensures |d.activeLockReason| > ReasonCap ==>
              HasPrefix(r, d.activeLockReason[..ReasonCap]) && HasSuffix(r, ViewSuffix(d.discussionUrl))
  {
    if d.activeLockReason == "" then "No reason provided"
    else Truncate(d.activeLockReason, ReasonCap, ViewSuffix(d.discussionUrl))
  }

  function DefaultLabel(l: Label): string {
    if l.isDefault then "Yes" else "No"
  }

  /** Every field of a discussion card is inline. */
  function InlineFields(pairs: seq<(string, string)>): (fs: seq<Field>)
    ensures |fs| == |pairs|
    ensures forall i :: 0 <= i < |pairs| ==> fs[i] == Field(pairs[i].0, pairs[i].1, true)
  {
    seq(|pairs|, i requires 0 <= i < |pairs| => Field(pairs[i].0, pairs[i].1, true))
  }

  /** The cases of the switch on the event's action (line 46); any other action is untracked. */
  datatype Action = Answered | CategoryChanged | Closed | Reopened | Created | Deleted | Edited | Labeled
                  | Locked | Unlocked | Pinned | Unpinned | Untracked

  /** The action name each case of the switch matches. */
  function Name(a: Action): string {
    match a
    case Answered => "answered"
    case CategoryChanged => "category_changed"
    case Closed => "closed"
    case Reopened => "reopened"
    case Created => "created"
    case Deleted => "deleted"
    case Edited => "edited"
    case Labeled => "labeled"
    case Locked => "locked"
    case Unlocked => "unlocked"
    case Pinned => "pinned"
    case Unpinned => "unpinned"
    case Untracked => ""
  }

  /** Which case of the switch an action string selects. */
  function ActionOf(action: string): (a: Action)
    ensures a != Untracked ==> Name(a) == action
  {
    if action == "answered" then Answered
    else if action == "category_changed" then CategoryChanged
    else if action == "closed" then Closed
    else if action == "reopened" then Reopened
    else if action == "created" then Created
    else if action == "deleted" then Deleted
    else if action == "edited" then Edited
    else if action == "labeled" then Labeled
    else if action == "locked" then Locked
    else if action == "unlocked" then Unlocked
    else if action == "pinned" then Pinned
    else if action == "unpinned" then Unpinned
    else Untracked
  }

  /** What a card of one action is made of: its title, colour, description and fields. */
  datatype Card = Card(title: string, color: int, description: string, fields: seq<(string, string)>)

  /** The fixed descriptions of the cards that do not show the body. */
  const MovedText := "This discussion has been moved to a new category!"
  const ClosedText := "This discussion has been closed and will no longer allow new comments/posts"
  const ReopenedText := "This discussion has been reopened"
  const DeletedBy := " has been deleted by: "
  const LockedText := "Adding new comments/answers is now prohibited"
  const UnlockedText := "You are free to answer/comment again"
  const UntrackedText := "It looks like this discussion has received a update that is not tracked by our systems yet!"

  /** The per-action switch of lines 46-628, with the locked reason as intended. */
  function CardFor(a: Action, ev: Event): (c: Card)
    ensures |c.fields| >= 1 && c.color in {ColorGreen, ColorYellow, ColorRed}
    ensures a != Deleted ==> TitleIndex(a) < |c.fields|
    ensures ShowsBody(a) ==> c.description == CutBody(ev.discussion)
  {
    var d := ev.discussion;
    var repo := ("Repository", ev.repo.fullName);
    match a
    case Answered =>
      Card("Discussion Answered", ColorGreen, CutBody(d),
           [repo, ("Answer Selected By", Link(d.answerSubmitter)), ("Answer Posted By", Link(d.author)),
            ("Origin Discussion", CutTitle(d)), ("View Answer", d.answerHtmlUrl),
            ("View Discussion", d.discussionUrl), ("Discussion Locked?", LockText(d))])
    case CategoryChanged =>
      Card("Discussion Category Updated", ColorYellow, MovedText,
           [repo, ("Discussion", CutTitle(d)), ("New Category", d.category.name)])
    case Closed =>
      Card("Discussion Closed", ColorRed,
           ClosedText,
           [("Discussion", Truncate(d.title, TitleCap, "...")), ("Closed By", Link(ev.sender)),
            ("Created By", Link(d.author)), repo])
    case Reopened =>
      Card("Discussion Reopened", ColorRed, ReopenedText,
           [("Discussion", CutTitle(d)), ("Opened By", Link(ev.sender)), ("Created By", Link(d.author)), repo])
    case Created =>
      Card("New Discussion Created", ColorGreen, CutBody(d),
           [("Title", CutTitle(d)), ("Author", Link(ev.sender)), ("Category", d.category.name), repo])
    case Deleted =>
      Card("Discussion Deleted", ColorRed, d.title + DeletedBy + AuthorEmbed(ev.sender).name, [repo])
    case Edited =>
      Card("Discussion Updated", ColorYellow, CutBody(d), [repo, ("Discussion", CutTitle(d))])
    case Labeled =>
      Card("Discussion Label Added", ColorGreen, "",
           [("Discussion", CutTitle(d)), ("Category", d.category.name), ("Label Name", ev.tag.name),
            ("Label Description", ev.tag.description), ("Default Label?", DefaultLabel(ev.tag)),
            ("Added By", Link(ev.sender)), repo])
    case Locked =>
      Card("Discussion Locked", ColorRed, LockedText,
           [("Discussion", CutTitle(d)), ("Reason", LockedReason(d)), ("Locked By", Link(ev.sender)), repo])
    case Unlocked =>
      Card("Discussion UnLocked", ColorRed, UnlockedText,
           [("Discussion", CutTitle(d)), ("Unlocked By", Link(ev.sender)), repo])
    case Pinned =>
      Card("Discussion Pinned", ColorGreen, CutBody(d),
           [("Discussion", CutTitle(d)), ("Category", d.category.name), ("Author", Link(d.author)),
            ("Pinned By", Link(ev.sender))])
    case Unpinned =>
      Card("Discussion UnPinned", ColorGreen, CutBody(d),
           [("Discussion", CutTitle(d)), ("Category", d.category.name), ("Author", Link(d.author)),
            ("Unpinned By", Link(ev.sender))])
    case Untracked =>
      Card("Discussion Updated", ColorRed,
           UntrackedText,
           [repo, ("Discussion", CutTitle(d)), ("Action Taken", ev.action)])
  }

  /** The embed of the card for case `a`, with the repository link, the sender as author and the date. */
  function CardEmbed(a: Action, ev: Event): (e: Embed)
    ensures e.url == ev.repo.htmlUrl && e.author == Some(AuthorEmbed(ev.sender))
    ensures e.timestamp == ev.discussion.discussionDate
    ensures |e.fields| == |CardFor(a, ev).fields| && forall i :: 0 <= i < |e.fields| ==> e.fields[i].inline
  {
    var c := CardFor(a, ev);
    Embed(c.title, c.description, ev.repo.htmlUrl, c.color, ev.discussion.discussionDate, InlineFields(c.fields), None,
          Some(AuthorEmbed(ev.sender)))
  }
  /** `discussionFn` on a decoded event: the card of the case its action selects. */
  function DiscussionEmbed(ev: Event): (e: Embed)
    ensures e.url == ev.repo.htmlUrl && e.author == Some(AuthorEmbed(ev.sender))
    ensures ActionOf(ev.action) == Untracked ==>
              && e.title == "Discussion Updated" && e.color == ColorRed
              && |e.fields| == 3 && e.fields[2] == Field("Action Taken", ev.action, true)
  {
    UnknownAction(ev);
    CardEmbed(ActionOf(ev.action), ev)
  }


  /** Where each card shows the discussion title. */
  function TitleIndex(a: Action): nat {
    match a
    case Answered => 3
    case CategoryChanged | Edited | Untracked => 1
    case _ => 0
  }

  /** The cases whose description is the cut body. */
  predicate ShowsBody(a: Action) {
    a == Answered || a == Created || a == Edited || a == Pinned || a == Unpinned
  }

  // ---------------------------------------------------------------------------
  // Properties
  // ---------------------------------------------------------------------------

  /** Each action name selects its own case, so the switch tells the twelve names apart. */
  lemma ActionOfName(a: Action)
    requires a != Untracked
    ensures ActionOf(Name(a)) == a
  {
    match a
    case Answered =>
    case CategoryChanged =>
    case Closed =>
    case Reopened =>
    case Created =>
    case Deleted =>
    case Edited =>
    case Labeled =>
    case Locked =>
    case Unlocked =>
    case Pinned =>
    case Unpinned =>
  }

  /** An action is untracked exactly when it is none of the twelve names. */
  lemma UntrackedIff(action: string)
    ensures ActionOf(action) == Untracked <==> forall a :: a != Untracked ==> Name(a) != action
  {
    if ActionOf(action) == Untracked {
      forall a | a != Untracked
        ensures Name(a) != action
      {
        ActionOfName(a);
      }
    }
  }

  /** Every card but the deleted one shows the title: cut with the plain "..." when closed, with the view link otherwise. */
  lemma TitleField(a: Action, ev: Event)
    requires a != Deleted
    ensures var c := CardFor(a, ev);
            && TitleIndex(a) < |c.fields|
            && c.fields[TitleIndex(a)].1
               == (if a == Closed then Truncate(ev.discussion.title, TitleCap, "...") else CutTitle(ev.discussion))
  {
    match a
    case Answered =>
    case CategoryChanged =>
    case Closed =>
    case Reopened =>
    case Created =>
    case Edited =>
    case Labeled =>
    case Locked =>
    case Unlocked =>
    case Pinned =>
    case Unpinned =>
    case Untracked =>
  }

  /**
   * A title over 190 bytes keeps its first 190 and gains the view link (plain
   * "..." when closed); a shorter one is shown as it is. A deleted discussion
   * shows no title field.
   */
  lemma TitleShown(a: Action, ev: Event)
    requires a != Deleted
    ensures var e := CardEmbed(a, ev);
            var d := ev.discussion;
            && TitleIndex(a) < |e.fields|
            && e.fields[TitleIndex(a)].value
               == (if a == Closed then Truncate(d.title, TitleCap, "...") else CutTitle(d))
            && (|d.title| <= TitleCap ==> e.fields[TitleIndex(a)].value == d.title)
            && (|d.title| > TitleCap && a != Closed ==>
                  e.fields[TitleIndex(a)].value == d.title[..TitleCap] + ViewSuffix(d.discussionUrl))
            && (|d.title| > TitleCap && a == Closed ==>
                  e.fields[TitleIndex(a)].value == d.title[..TitleCap] + "...")
  {
    var d := ev.discussion;
    TitleField(a, ev);
    if |d.title| > TitleCap {
      assert d.title[..TitleCap] + ViewSuffix(d.discussionUrl) == CutTitle(d);
    }
  }

  /** The body is the description exactly in the five cases that show it, cut at 3000 bytes plus the view link. */
  lemma BodyShown(a: Action, ev: Event)
    requires ShowsBody(a)
    ensures var e := CardEmbed(a, ev);
            var d := ev.discussion;
            && e.description == CutBody(d)
            && (|d.answerRespBody| <= BodyCap ==> e.description == d.answerRespBody)
            && (|d.answerRespBody| > BodyCap ==> e.description == d.answerRespBody[..BodyCap] + ViewSuffix(d.discussionUrl))
  {
  }

  /** An answered discussion reports its lock reason, or that it is still open. */
  lemma AnsweredLockText(ev: Event)
    ensures var f := CardEmbed(Answered, ev).fields[6];
            var r := ev.discussion.activeLockReason;
            && f.name == "Discussion Locked?"
            && (r != "" ==> f.value == "Discussion is now Closed: " + r)
            && (r == "" ==> f.value == "Discussion is still open for comments")
  {
  }

  /** A locked discussion gives its reason, cut at 999 bytes, or "No reason provided". */
  lemma LockedReasonShown(ev: Event)
    ensures var f := CardEmbed(Locked, ev).fields[1];
            var d := ev.discussion;
            && f.name == "Reason"
            && (f.value == "No reason provided" <==> d.activeLockReason == "" || d.activeLockReason == "No reason provided")
            && (|d.activeLockReason| <= ReasonCap ==> d.activeLockReason != "" ==> f.value == d.activeLockReason)
            && (|d.activeLockReason| > ReasonCap ==>
                  f.value == d.activeLockReason[..ReasonCap] + ViewSuffix(d.discussionUrl))
  {
    var d := ev.discussion;
    if |d.activeLockReason| > ReasonCap {
      var v := d.activeLockReason[..ReasonCap] + ViewSuffix(d.discussionUrl);
      assert |v| > |"No reason provided"|;
    }
  }

  /**
   * As written, the over-long reason is never shown: the text is the answer
   * body's first 999 bytes, whatever the reason says, and a shorter body panics.
   */
  lemma LockedReasonAsWrittenIgnoresReason(d: Thread, otherReason: string)
    requires |d.activeLockReason| > ReasonCap && |otherReason| > ReasonCap
    ensures |d.answerRespBody| < ReasonCap ==> LockedReasonAsWritten(d).None?
    ensures LockedReasonAsWritten(d) == LockedReasonAsWritten(d.(activeLockReason := otherReason))
    ensures |d.answerRespBody| >= ReasonCap ==>
              LockedReasonAsWritten(d) == Some(d.answerRespBody[..ReasonCap] + ViewSuffix(d.discussionUrl))
  {
  }

  /** As intended, two different over-long reasons that differ in their first 999 bytes give different texts. */
  lemma LockedReasonIntendedShowsReason(d: Thread, otherReason: string)
    requires |d.activeLockReason| > ReasonCap && |otherReason| > ReasonCap
    requires d.activeLockReason[..ReasonCap] != otherReason[..ReasonCap]
    ensures LockedReason(d) != LockedReason(d.(activeLockReason := otherReason))
    ensures HasPrefix(LockedReason(d), d.activeLockReason[..ReasonCap])
  {
    var a := LockedReason(d);
    var b := LockedReason(d.(activeLockReason := otherReason));
    assert a[..ReasonCap] == d.activeLockReason[..ReasonCap];
    assert b[..ReasonCap] == otherReason[..ReasonCap];
  }

  /** The "Default Label?" flag. */
  lemma LabeledDefault(ev: Event)
    ensures var f := CardEmbed(Labeled, ev).fields[4];
            f.name == "Default Label?" && (f.value == "Yes" <==> ev.tag.isDefault) && (f.value == "No" <==> !ev.tag.isDefault)
  {
  }

  /** A deletion names the whole title, however long, and the sender's login. */
  lemma DeletedDescription(ev: Event)
    ensures var e := CardEmbed(Deleted, ev);
            && e.description == ev.discussion.title + " has been deleted by: " + ev.sender.login
            && |e.description| == |ev.discussion.title| + 22 + |ev.sender.login|
            && |e.fields| == 1
  {
  }

  /** An action the formatter does not know gives the red "Discussion Updated" card that names the action. */
  lemma UnknownAction(ev: Event)
    ensures var e := CardEmbed(Untracked, ev);
            && e.title == "Discussion Updated" && e.color == ColorRed
            && |e.fields| == 3 && e.fields[2] == Field("Action Taken", ev.action, true)
  {
    var c := CardFor(Untracked, ev);
    assert c.fields == [("Repository", ev.repo.fullName), ("Discussion", CutTitle(ev.discussion)), ("Action Taken", ev.action)];
  }

  /** Only the edited and untracked cards are titled "Discussion Updated"; of those only the edited one is yellow. */
  lemma UpdatedCards(a: Action, ev: Event)
    ensures CardFor(a, ev).title == "Discussion Updated" <==> a in {Edited, Untracked}
    ensures CardFor(a, ev).title == "Discussion Updated" ==> (CardFor(a, ev).color == ColorYellow <==> a == Edited)
  {
    var t := CardFor(a, ev).title;
    match a
    case Answered => assert t[11] != "Discussion Updated"[11];
    case CategoryChanged =>
    case Closed =>
    case Reopened => assert t[11] != "Discussion Updated"[11];
    case Created =>
    case Deleted => assert t[11] != "Discussion Updated"[11];
    case Edited =>
    case Labeled =>
    case Locked =>
    case Unlocked => assert t[13] != "Discussion Updated"[13];
    case Pinned =>
    case Unpinned => assert t[13] != "Discussion Updated"[13];
    case Untracked =>
  }

  /** Every card carries the repository link, the sender as author and the discussion's date, and only inline fields. */
  lemma CardFrame(a: Action, ev: Event)
    ensures var e := CardEmbed(a, ev);
            && e.url == ev.repo.htmlUrl && e.author == Some(AuthorEmbed(ev.sender))
            && e.timestamp == ev.discussion.discussionDate
            && forall i :: 0 <= i < |e.fields| ==> e.fields[i].inline
  {
  }
}
