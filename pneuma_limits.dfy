/**
 * Discord's size limits on an embed, and `applyEmbedLimits`
 * (webserver/pneuma/pneuma.go), which cuts an embed down in place: title,
 * description, the first 25 fields (name, then value), footer text, author
 * name, in that order, against per-component limits and a running total.
 *
 * As written, `_sliceChars` slices to the computed limit rather than to the
 * string's own length, and Go's `s[:n]` panics when `n > len(s)`. The walk is
 * therefore modelled with a `SliceMode`: `AsWritten` follows the code and can
 * end in `Panicked`; `Clamped` slices to `min(limit, len(s))`, the evidently
 * intended behaviour, which the rest of the model uses.
 */
module EmbedLimits {
  import opened Wrappers
  import opened Discord
  import opened GoStrings

  const TitleLimit: nat := 256
  const DescriptionLimit: nat := 4096
  const FieldsMaxCount: nat := 25
  const FieldNameLimit: nat := 256
  const FieldValueLimit: nat := 1024
  const FooterTextLimit: nat := 2048
  const AuthorNameLimit: nat := 256
  const TotalLimit: nat := 6000

  datatype SliceMode = AsWritten | Clamped

  /** A value with the running character total after it, or the panic of an out-of-range slice. */
  datatype Sliced<+T> = Sliced(value: T, total: nat) | Panicked

  function Min(a: int, b: int): int {
    if a <= b then a else b
  }

  /** `_getCharLimit`: the most characters that fit both the component's limit and what is left of the total. */
  function CharLimit(total: nat, limit: nat, maxChars: nat): (n: nat)
    ensures maxChars <= total ==> n == 0
    ensures total < maxChars ==> n <= limit && total + n <= maxChars && (n == limit || total + n == maxChars)
  {
    if maxChars <= total then 0 else Min(limit, maxChars - total)
  }

  /** The first `min(charLimit, len(s))` bytes of `s`: what a completed `_sliceChars` keeps. */
  function Kept(s: string, total: nat, limit: nat): (k: string)
    ensures HasPrefix(s, k) && |k| == Min(CharLimit(total, limit, TotalLimit), |s|)
  {
    s[..Min(CharLimit(total, limit, TotalLimit), |s|)]
  }

  /** A text within its own limit and within what is left of the total is kept whole. */
  lemma KeptWhole(s: string, total: nat, limit: nat)
    requires |s| <= limit && total + |s| <= TotalLimit
    ensures Kept(s, total, limit) == s
  {
    assert s[..|s|] == s;
  }

  /** `_sliceChars(s, &total, limit, EMBED_TOTAL_LIMIT)`. */
  function SliceChars(s: string, total: nat, limit: nat, mode: SliceMode): (r: Sliced<string>)
    ensures r.Sliced? ==> r.value == Kept(s, total, limit)
    ensures r.Sliced? ==> HasPrefix(s, r.value) && |r.value| <= limit && r.total == total + |r.value|
    ensures r.Sliced? && total <= TotalLimit ==> r.total <= TotalLimit
    ensures r.Sliced? && total >= TotalLimit ==> r.value == ""
    ensures mode == Clamped ==> r.Sliced?
    ensures r.Panicked? <==> mode == AsWritten && |s| < CharLimit(total, limit, TotalLimit)
  {
    var charLimit := CharLimit(total, limit, TotalLimit);
    if charLimit == 0 then Sliced("", total)
    else if mode == AsWritten then
      if |s| < charLimit then Panicked else Sliced(s[..charLimit], total + charLimit)
    else
      var n := Min(charLimit, |s|);
      Sliced(s[..n], total + n)
  }

  /** Lines 84-87: a non-empty title is sliced to 256; only the title changes. */
  function TitleStage(e: Embed, total: nat, mode: SliceMode): (r: Sliced<Embed>)
    ensures mode == Clamped ==> r.Sliced?
    ensures r.Panicked? <==> mode == AsWritten && e.title != "" && |e.title| < CharLimit(total, TitleLimit, TotalLimit)
    ensures r.Sliced? ==> && r.value == e.(title := r.value.title) && r.value.title == Kept(e.title, total, TitleLimit)
                          && HasPrefix(e.title, r.value.title) && |r.value.title| <= TitleLimit
                          && r.total == total + |r.value.title|
  {
    if e.title == "" then Sliced(e, total)
    else
      match SliceChars(e.title, total, TitleLimit, mode)
      case Panicked => Panicked
      case Sliced(v, t) => Sliced(e.(title := v), t)
  }

  /** Lines 89-92: a non-empty description is sliced to 4096; only the description changes. */
  function DescriptionStage(e: Embed, total: nat, mode: SliceMode): (r: Sliced<Embed>)
    ensures mode == Clamped ==> r.Sliced?
    ensures r.Panicked? <==> mode == AsWritten && e.description != "" && |e.description| < CharLimit(total, DescriptionLimit, TotalLimit)
    ensures r.Sliced? ==> && r.value == e.(description := r.value.description)
                          && r.value.description == Kept(e.description, total, DescriptionLimit)
                          && HasPrefix(e.description, r.value.description) && |r.value.description| <= DescriptionLimit
                          && r.total == total + |r.value.description|
  {
    if e.description == "" then Sliced(e, total)
    else
      match SliceChars(e.description, total, DescriptionLimit, mode)
      case Panicked => Panicked
      case Sliced(v, t) => Sliced(e.(description := v), t)
  }

  function Prepend<T>(done: seq<T>, r: Sliced<seq<T>>): Sliced<seq<T>> {
    match r
    case Panicked => Panicked
    case Sliced(rest, t) => Sliced(done + rest, t)
  }

  lemma PrependNil<T>(r: Sliced<seq<T>>)
    ensures Prepend([], r) == r
  {
    if r.Sliced? { assert [] + r.value == r.value; }
  }

  lemma PrependPrepend<T>(a: seq<T>, b: seq<T>, r: Sliced<seq<T>>)
    ensures Prepend(a, Prepend(b, r)) == Prepend(a + b, r)
  {
    if r.Sliced? { assert a + (b + r.value) == (a + b) + r.value; }
  }

  /** The name then the value of one field. */
  function FieldStep(f: Field, total: nat, mode: SliceMode): Sliced<Field> {
    match SliceChars(f.name, total, FieldNameLimit, mode)
    case Panicked => Panicked
    case Sliced(n, t1) =>
      match SliceChars(f.value, t1, FieldValueLimit, mode)
      case Panicked => Panicked
      case Sliced(v, t2) => Sliced(f.(name := n, value := v), t2)
  }

  /** The loop over the fields. */
  function FieldsStep(fs: seq<Field>, total: nat, mode: SliceMode): Sliced<seq<Field>> {
    if fs == [] then Sliced([], total)
    else
      match FieldStep(fs[0], total, mode)
      case Panicked => Panicked
      case Sliced(f, t) => Prepend([f], FieldsStep(fs[1..], t, mode))
  }

  function CutFields(fs: seq<Field>): seq<Field> {
    if |fs| > FieldsMaxCount then fs[..FieldsMaxCount] else fs
  }

  /** Field `o` is what the loop leaves of `f` from a running total of `before`: the name keeps `Kept` of itself, then the value does, after the name. */
  predicate KeptField(o: Field, f: Field, before: nat) {
    o == f.(name := Kept(f.name, before, FieldNameLimit), value := Kept(f.value, before + |o.name|, FieldValueLimit))
  }

  /** `out` is what the field loop leaves of `fs` from a running total of `total`, field by field. */
  predicate KeptFields(out: seq<Field>, fs: seq<Field>, total: nat) {
    && |out| == |fs|
    && forall i :: 0 <= i < |fs| ==> KeptField(out[i], fs[i], total + FieldChars(out[..i]))
  }

  /** One more field in front: a field kept from `total`, before fields kept from after it. */
  lemma KeptFieldsCons(out0: Field, rest: seq<Field>, fs: seq<Field>, total: nat)
    requires fs != [] && KeptField(out0, fs[0], total)
    requires KeptFields(rest, fs[1..], total + |out0.name| + |out0.value|)
    ensures KeptFields([out0] + rest, fs, total)
  {
    var out := [out0] + rest;
    forall i | 0 <= i < |fs|
      ensures KeptField(out[i], fs[i], total + FieldChars(out[..i]))
    {
      if i == 0 {
        assert out[..i] == [];
      } else {
        assert out[..i][1..] == rest[..i - 1];
        assert FieldChars(out[..i]) == |out0.name| + |out0.value| + FieldChars(rest[..i - 1]);
        assert out[i] == rest[i - 1] && fs[i] == fs[1..][i - 1];
      }
    }
  }

  /** A completed field loop keeps exactly `Kept` of every name and value, and counts what it kept. */
  lemma {:induction false} FieldsStepKeeps(fs: seq<Field>, total: nat, mode: SliceMode)
    ensures var r := FieldsStep(fs, total, mode);
            r.Sliced? ==> KeptFields(r.value, fs, total) && r.total == total + FieldChars(r.value)
  {
    var r := FieldsStep(fs, total, mode);
    if fs != [] && r.Sliced? {
      var f := FieldStep(fs[0], total, mode);
      var rest := FieldsStep(fs[1..], f.total, mode);
      FieldsStepKeeps(fs[1..], f.total, mode);
      assert r.value == [f.value] + rest.value;
      assert r.value[1..] == rest.value;
      KeptFieldsCons(f.value, rest.value, fs, total);
    }
  }

  /** A field whose name and value fit their limits and the total comes through its step unchanged. */
  lemma FieldStepFitting(f: Field, total: nat)
    requires |f.name| <= FieldNameLimit && |f.value| <= FieldValueLimit
    requires total + |f.name| + |f.value| <= TotalLimit
    ensures FieldStep(f, total, Clamped) == Sliced(f, total + |f.name| + |f.value|)
  {
    KeptWhole(f.name, total, FieldNameLimit);
    KeptWhole(f.value, total + |f.name|, FieldValueLimit);
  }

  /** Fields that each fit, and fit the total together, come through the loop unchanged. */
  lemma {:induction false} FieldsStepFitting(fs: seq<Field>, total: nat)
    requires forall i :: 0 <= i < |fs| ==> |fs[i].name| <= FieldNameLimit && |fs[i].value| <= FieldValueLimit
    requires total + FieldChars(fs) <= TotalLimit
    ensures FieldsStep(fs, total, Clamped) == Sliced(fs, total + FieldChars(fs))
  {
    if fs != [] {
      var f := fs[0];
      FieldStepFitting(f, total);
      assert forall i :: 0 <= i < |fs[1..]| ==> fs[1..][i] == fs[i + 1];
      FieldsStepFitting(fs[1..], total + |f.name| + |f.value|);
      assert [f] + fs[1..] == fs;
    }
  }

  /** Lines 95-105: the fields are cut to 25 and sliced in turn; only the fields change. */
  function FieldsStage(e: Embed, total: nat, mode: SliceMode): (r: Sliced<Embed>)
    ensures mode == Clamped ==> r.Sliced?
    ensures r.Panicked? ==> mode == AsWritten && e.fields != []
    ensures r.Sliced? ==> r.value == e.(fields := r.value.fields)
  {
    FieldsStepNeverPanicsClamped(CutFields(e.fields), total);
    match FieldsStep(CutFields(e.fields), total, mode)
    case Panicked => Panicked
    case Sliced(fs, t) => Sliced(e.(fields := fs), t)
  }

  /** A completed fields stage keeps the first 25 fields, each as the field loop keeps it, and counts what it kept. */
  lemma FieldsStageKeeps(e: Embed, total: nat, mode: SliceMode)
    ensures var r := FieldsStage(e, total, mode);
            r.Sliced? ==> KeptFields(r.value.fields, CutFields(e.fields), total) && r.total == total + FieldChars(r.value.fields)
  {
    FieldsStepKeeps(CutFields(e.fields), total, mode);
  }

  /** Lines 107-110: a footer's text is sliced to 2048; only that text changes. */
  function FooterStage(e: Embed, total: nat, mode: SliceMode): (r: Sliced<Embed>)
    ensures mode == Clamped ==> r.Sliced?
    ensures r.Panicked? <==> mode == AsWritten && e.footer.Some? && |e.footer.value.text| < CharLimit(total, FooterTextLimit, TotalLimit)
    ensures r.Sliced? ==> && r.value == e.(footer := r.value.footer)
                          && (e.footer.None? ==> r.value.footer.None? && r.total == total)
                          && (e.footer.Some? ==> && r.value.footer.Some? && r.value.footer == Some(e.footer.value.(text := r.value.footer.value.text))
                                                 && r.value.footer.value.text == Kept(e.footer.value.text, total, FooterTextLimit)
                                                 && HasPrefix(e.footer.value.text, r.value.footer.value.text)
                                                 && r.total == total + |r.value.footer.value.text|)
  {
    match e.footer
    case None => Sliced(e, total)
    case Some(f) =>
      match SliceChars(f.text, total, FooterTextLimit, mode)
      case Panicked => Panicked
      case Sliced(v, t) => Sliced(e.(footer := Some(f.(text := v))), t)
  }

  /** Lines 112-115: an author's name is sliced to 256; only that name changes. */
  function AuthorStage(e: Embed, total: nat, mode: SliceMode): (r: Sliced<Embed>)
    ensures mode == Clamped ==> r.Sliced?
    ensures r.Panicked? <==> mode == AsWritten && e.author.Some? && |e.author.value.name| < CharLimit(total, AuthorNameLimit, TotalLimit)
    ensures r.Sliced? ==> && r.value == e.(author := r.value.author)
                          && (e.author.None? ==> r.value.author.None? && r.total == total)
                          && (e.author.Some? ==> && r.value.author.Some? && r.value.author == Some(e.author.value.(name := r.value.author.value.name))
                                                 && r.value.author.value.name == Kept(e.author.value.name, total, AuthorNameLimit)
                                                 && HasPrefix(e.author.value.name, r.value.author.value.name)
                                                 && r.total == total + |r.value.author.value.name|)
  {
    match e.author
    case None => Sliced(e, total)
    case Some(a) =>
      match SliceChars(a.name, total, AuthorNameLimit, mode)
      case Panicked => Panicked
      case Sliced(v, t) => Sliced(e.(author := Some(a.(name := v))), t)
  }

  /** `applyEmbedLimits`, stage by stage from a total of 0. */
  function LimitEmbed(e: Embed, mode: SliceMode): (r: Sliced<Embed>)
    ensures mode == Clamped ==> r.Sliced?
    ensures r.Sliced? ==> && r.value.url == e.url && r.value.color == e.color && r.value.timestamp == e.timestamp
                          && HasPrefix(e.title, r.value.title) && HasPrefix(e.description, r.value.description)
                          && r.value.footer.Some? == e.footer.Some? && r.value.author.Some? == e.author.Some?
  {
    var s1 := TitleStage(e, 0, mode);
    if s1.Panicked? then Panicked else
    var s2 := DescriptionStage(s1.value, s1.total, mode);
    if s2.Panicked? then Panicked else
    var s3 := FieldsStage(s2.value, s2.total, mode);
    if s3.Panicked? then Panicked else
    var s4 := FooterStage(s3.value, s3.total, mode);
    if s4.Panicked? then Panicked else
    AuthorStage(s4.value, s4.total, mode)
  }

  /** The corrected normalizer, which never panics (`LimitEmbedNeverPanicsClamped`). */
  function Normalize(e: Embed): (r: Embed)
    ensures Bounded(r) && TruncationOf(r, e)
  {
    LimitEmbedBounded(e, Clamped);
    LimitEmbedTruncates(e, Clamped);
    LimitEmbed(e, Clamped).value
  }

  // ---------------------------------------------------------------------------
  // The embed as the object applyEmbedLimits rewrites in place
  // ---------------------------------------------------------------------------

  class MessageEmbed {
    var title: string
    var description: string
    var url: string
    var color: int
    var timestamp: string
    var fields: seq<Field>
    var footer: Option<Footer>
    var author: Option<Author>

    function Value(): Embed
      reads this
    {
      Embed(title, description, url, color, timestamp, fields, footer, author)
    }

    constructor (e: Embed)
      ensures Value() == e
    {
      title, description, url, color, timestamp := e.title, e.description, e.url, e.color, e.timestamp;
      fields, footer, author := e.fields, e.footer, e.author;
    }

    /** The loop of `applyEmbedLimits` over the (already cut) fields, name then value. */
    method LimitFields(t0: nat) returns (ok: bool, totalChars: nat)
      modifies this
      ensures ok <==> FieldsStep(old(fields), t0, AsWritten).Sliced?
      ensures ok ==> fields == FieldsStep(old(fields), t0, AsWritten).value
      ensures ok ==> totalChars == FieldsStep(old(fields), t0, AsWritten).total
      ensures Value() == old(Value()).(fields := fields)
    {
      ghost var fs0 := fields;
      totalChars := t0;
      assert fs0[0..] == fs0;
      PrependNil(FieldsStep(fs0, t0, AsWritten));
      var i := 0;
      while i < |fields|
        invariant 0 <= i <= |fields| == |fs0|
        invariant fields[i..] == fs0[i..]
        invariant Prepend(fields[..i], FieldsStep(fs0[i..], totalChars, AsWritten)) == FieldsStep(fs0, t0, AsWritten)
        invariant Value() == old(Value()).(fields := fields)
      {
        var f := fields[i];
        assert fs0[i..][0] == f && fs0[i..][1..] == fs0[i + 1..];
        var n := SliceChars(f.name, totalChars, FieldNameLimit, AsWritten);
        if n.Panicked? {
          return false, totalChars;
        }
        fields := fields[i := f.(name := n.value)];
        totalChars := n.total;
        var v := SliceChars(f.value, totalChars, FieldValueLimit, AsWritten);
        if v.Panicked? {
          return false, totalChars;
        }
        ghost var before := fields[..i];
        fields := fields[i := fields[i].(value := v.value)];
        assert fields[..i] == before;
        ghost var rest := FieldsStep(fs0[i + 1..], v.total, AsWritten);
        assert FieldStep(f, n.total - |n.value|, AsWritten) == Sliced(fields[i], v.total);
        PrependPrepend(before, [fields[i]], rest);
        totalChars := v.total;
        assert fields[..i + 1] == fields[..i] + [fields[i]];
        assert fields[i + 1..] == fs0[i + 1..];
        i := i + 1;
      }
      assert fields[..i] == fields && fs0[i..] == [];
      assert fields + [] == fields;
      return true, totalChars;
    }

    /** The title step: sliced when non-empty. */
    method LimitTitle(t0: nat) returns (ok: bool, totalChars: nat)
      modifies this
      ensures ok <==> TitleStage(old(Value()), t0, AsWritten).Sliced?
      ensures ok ==> TitleStage(old(Value()), t0, AsWritten) == Sliced(Value(), totalChars)
    {
      totalChars := t0;
      if title != "" {
        var r := SliceChars(title, totalChars, TitleLimit, AsWritten);
        if r.Panicked? { return false, totalChars; }
        title, totalChars := r.value, r.total;
      }
      return true, totalChars;
    }

    /** The description step: sliced when non-empty. */
    method LimitDescription(t0: nat) returns (ok: bool, totalChars: nat)
      modifies this
      ensures ok <==> DescriptionStage(old(Value()), t0, AsWritten).Sliced?
      ensures ok ==> DescriptionStage(old(Value()), t0, AsWritten) == Sliced(Value(), totalChars)
    {
      totalChars := t0;
      if description != "" {
        var r := SliceChars(description, totalChars, DescriptionLimit, AsWritten);
        if r.Panicked? { return false, totalChars; }
        description, totalChars := r.value, r.total;
      }
      return true, totalChars;
    }

    /** The fields step: the list cut to 25, then the loop. */
    method LimitFieldsStage(t0: nat) returns (ok: bool, totalChars: nat)
      modifies this
      ensures ok <==> FieldsStage(old(Value()), t0, AsWritten).Sliced?
      ensures ok ==> FieldsStage(old(Value()), t0, AsWritten) == Sliced(Value(), totalChars)
    {
      if |fields| > FieldsMaxCount {
        fields := fields[..FieldsMaxCount];
      }
      assert fields == CutFields(old(Value()).fields);
      ok, totalChars := LimitFields(t0);
    }

    /** The footer step: its text sliced when there is a footer. */
    method LimitFooter(t0: nat) returns (ok: bool, totalChars: nat)
      modifies this
      ensures ok <==> FooterStage(old(Value()), t0, AsWritten).Sliced?
      ensures ok ==> FooterStage(old(Value()), t0, AsWritten) == Sliced(Value(), totalChars)
    {
      totalChars := t0;
      if footer.Some? {
        var r := SliceChars(footer.value.text, totalChars, FooterTextLimit, AsWritten);
        if r.Panicked? { return false, totalChars; }
        footer, totalChars := Some(footer.value.(text := r.value)), r.total;
      }
      return true, totalChars;
    }

    /** The author step: its name sliced when there is an author. */
    method LimitAuthor(t0: nat) returns (ok: bool, totalChars: nat)
      modifies this
      ensures ok <==> AuthorStage(old(Value()), t0, AsWritten).Sliced?
      ensures ok ==> AuthorStage(old(Value()), t0, AsWritten) == Sliced(Value(), totalChars)
    {
      totalChars := t0;
      if author.Some? {
        var r := SliceChars(author.value.name, totalChars, AuthorNameLimit, AsWritten);
        if r.Panicked? { return false, totalChars; }
        author, totalChars := Some(author.value.(name := r.value)), r.total;
      }
      return true, totalChars;
    }

    /**
     * `applyEmbedLimits(e)`. `ok` is false where Go would panic; the embed is
     * then left part-way. Nothing recovers that panic, so in the source it ends
     * the whole process, not only the goroutine that handles the event.
     */
    method ApplyEmbedLimits() returns (ok: bool)
      modifies this
      ensures ok <==> LimitEmbed(old(Value()), AsWritten).Sliced?
      ensures ok ==> Value() == LimitEmbed(old(Value()), AsWritten).value
    {
      ghost var e0 := Value();
      var totalChars: nat := 0;
      ok, totalChars := LimitTitle(totalChars);
      if !ok { return; }
      ok, totalChars := LimitDescription(totalChars);
      if !ok { return; }
      ok, totalChars := LimitFieldsStage(totalChars);
      if !ok { return; }
      ok, totalChars := LimitFooter(totalChars);
      if !ok { return; }
      ok, totalChars := LimitAuthor(totalChars);
    }
  }

  // ---------------------------------------------------------------------------
  // What the normalizer guarantees
  // ---------------------------------------------------------------------------

  function FieldChars(fs: seq<Field>): nat {
    if fs == [] then 0 else |fs[0].name| + |fs[0].value| + FieldChars(fs[1..])
  }

  function FooterChars(f: Option<Footer>): nat {
    if f.Some? then |f.value.text| else 0
  }

  function AuthorChars(a: Option<Author>): nat {
    if a.Some? then |a.value.name| else 0
  }

  /** The characters Discord counts against the 6000 total. */
  function Counted(e: Embed): nat {
    |e.title| + |e.description| + FieldChars(e.fields) + FooterChars(e.footer) + AuthorChars(e.author)
  }

  /** Every component within its own limit, at most 25 fields, and the whole within 6000. */
  predicate Bounded(e: Embed) {
    && |e.title| <= TitleLimit
    && |e.description| <= DescriptionLimit
    && |e.fields| <= FieldsMaxCount
    && (forall i :: 0 <= i < |e.fields| ==> |e.fields[i].name| <= FieldNameLimit && |e.fields[i].value| <= FieldValueLimit)
    && (e.footer.Some? ==> |e.footer.value.text| <= FooterTextLimit)
    && (e.author.Some? ==> |e.author.value.name| <= AuthorNameLimit)
    && Counted(e) <= TotalLimit
  }

  /** Each output component is a prefix of the input one, the first 25 fields are kept in order, and nothing else changes. */
  predicate TruncationOf(out: Embed, e: Embed) {
    && HasPrefix(e.title, out.title)
    && HasPrefix(e.description, out.description)
    && |out.fields| == Min(|e.fields|, FieldsMaxCount)
    && (forall i :: 0 <= i < |out.fields| ==>
          && HasPrefix(e.fields[i].name, out.fields[i].name)
          && HasPrefix(e.fields[i].value, out.fields[i].value)
          && out.fields[i].inline == e.fields[i].inline)
    && out.footer.Some? == e.footer.Some?
    && (out.footer.Some? ==> (HasPrefix(e.footer.value.text, out.footer.value.text) && out.footer.value.iconUrl == e.footer.value.iconUrl))
    && out.author.Some? == e.author.Some?
    && (out.author.Some? ==>
          && HasPrefix(e.author.value.name, out.author.value.name)
          && out.author.value.url == e.author.value.url
          && out.author.value.iconUrl == e.author.value.iconUrl)
    && out.url == e.url && out.color == e.color && out.timestamp == e.timestamp
  }

  /** Once the running total reaches 6000, every later field name and value is empty. */
  predicate FieldsBlankAfter(fs: seq<Field>, total: nat) {
    fs != [] ==>
      && (total >= TotalLimit ==> fs[0].name == "")
      && (total + |fs[0].name| >= TotalLimit ==> fs[0].value == "")
      && FieldsBlankAfter(fs[1..], total + |fs[0].name| + |fs[0].value|)
  }

  /** The embed-wide form: the components after the point where the total reaches 6000 are empty. */
  predicate BlankAfterBudget(e: Embed) {
    var beforeFields := |e.title| + |e.description|;
    var beforeFooter := beforeFields + FieldChars(e.fields);
    && FieldsBlankAfter(e.fields, beforeFields)
    && (beforeFooter >= TotalLimit && e.footer.Some? ==> e.footer.value.text == "")
    && (beforeFooter + FooterChars(e.footer) >= TotalLimit && e.author.Some? ==> e.author.value.name == "")
  }

  /**
   * `out` keeps exactly what the walk keeps of `e`: each component its first
   * min(limit, what is left of 6000) bytes, counted from what was kept before
   * it; the fields are the first 25, each kept as the field loop keeps it.
   */
  predicate KeptFrom(out: Embed, e: Embed) {
    var beforeFields := |out.title| + |out.description|;
    var beforeFooter := beforeFields + FieldChars(out.fields);
    && out.title == Kept(e.title, 0, TitleLimit)
    && out.description == Kept(e.description, |out.title|, DescriptionLimit)
    && KeptFields(out.fields, CutFields(e.fields), beforeFields)
    && (e.footer.Some? ==> out.footer == Some(e.footer.value.(text := Kept(e.footer.value.text, beforeFooter, FooterTextLimit))))
    && (e.author.Some? ==>
          out.author == Some(e.author.value.(name := Kept(e.author.value.name, beforeFooter + FooterChars(out.footer), AuthorNameLimit))))
  }

  lemma {:induction false} FieldsStepFacts(fs: seq<Field>, total: nat, mode: SliceMode)
    requires total <= TotalLimit
    requires FieldsStep(fs, total, mode).Sliced?
    ensures var r := FieldsStep(fs, total, mode);
            && |r.value| == |fs|
            && r.total == total + FieldChars(r.value) <= TotalLimit
            && FieldsBlankAfter(r.value, total)
            && (forall i :: 0 <= i < |fs| ==>
                  && HasPrefix(fs[i].name, r.value[i].name) && |r.value[i].name| <= FieldNameLimit
                  && HasPrefix(fs[i].value, r.value[i].value) && |r.value[i].value| <= FieldValueLimit
                  && r.value[i].inline == fs[i].inline)
  {
    if fs != [] {
      var f := FieldStep(fs[0], total, mode);
      var rest := FieldsStep(fs[1..], f.total, mode);
      FieldsStepFacts(fs[1..], f.total, mode);
      var r := FieldsStep(fs, total, mode);
      assert r.value == [f.value] + rest.value;
      assert r.value[1..] == rest.value;
      forall i | 0 <= i < |fs|
        ensures HasPrefix(fs[i].name, r.value[i].name) && HasPrefix(fs[i].value, r.value[i].value)
      {
        if i > 0 { assert r.value[i] == rest.value[i - 1] && fs[i] == fs[1..][i - 1]; }
      }
    }
  }

  // One lemma per stage: what it changes, what it keeps, and that a second
  // application to its own output is the identity.

  lemma TitleStageFacts(e: Embed, t: nat, mode: SliceMode)
    requires t <= TotalLimit && TitleStage(e, t, mode).Sliced?
    ensures var r := TitleStage(e, t, mode);
            && r.value == e.(title := r.value.title)
            && HasPrefix(e.title, r.value.title) && |r.value.title| <= TitleLimit
            && r.total == t + |r.value.title| <= TotalLimit
            && (t >= TotalLimit ==> r.value.title == "")
            && (t < TotalLimit ==> (r.value.title == "" <==> e.title == ""))
  {
  }

  lemma DescriptionStageFacts(e: Embed, t: nat, mode: SliceMode)
    requires t <= TotalLimit && DescriptionStage(e, t, mode).Sliced?
    ensures var r := DescriptionStage(e, t, mode);
            && r.value == e.(description := r.value.description)
            && HasPrefix(e.description, r.value.description) && |r.value.description| <= DescriptionLimit
            && r.total == t + |r.value.description| <= TotalLimit
            && (t >= TotalLimit ==> r.value.description == "")
            && (t < TotalLimit ==> (r.value.description == "" <==> e.description == ""))
  {
  }

  lemma FieldsStageFacts(e: Embed, t: nat, mode: SliceMode)
    requires t <= TotalLimit && FieldsStage(e, t, mode).Sliced?
    ensures var r := FieldsStage(e, t, mode);
            && r.value == e.(fields := r.value.fields)
            && |r.value.fields| == Min(|e.fields|, FieldsMaxCount)
            && r.total == t + FieldChars(r.value.fields) <= TotalLimit
            && FieldsBlankAfter(r.value.fields, t)
            && (forall i :: 0 <= i < |r.value.fields| ==>
                  && HasPrefix(e.fields[i].name, r.value.fields[i].name) && |r.value.fields[i].name| <= FieldNameLimit
                  && HasPrefix(e.fields[i].value, r.value.fields[i].value) && |r.value.fields[i].value| <= FieldValueLimit
                  && r.value.fields[i].inline == e.fields[i].inline)
  {
    var cut := CutFields(e.fields);
    FieldsStepFacts(cut, t, mode);
    assert forall i :: 0 <= i < |cut| ==> cut[i] == e.fields[i];
  }

  lemma FooterStageFacts(e: Embed, t: nat, mode: SliceMode)
    requires t <= TotalLimit && FooterStage(e, t, mode).Sliced?
    ensures var r := FooterStage(e, t, mode);
            && r.value == e.(footer := r.value.footer)
            && r.value.footer.Some? == e.footer.Some?
            && (e.footer.Some? ==>
                  && HasPrefix(e.footer.value.text, r.value.footer.value.text)
                  && |r.value.footer.value.text| <= FooterTextLimit
                  && r.value.footer.value.iconUrl == e.footer.value.iconUrl
                  && (t >= TotalLimit ==> r.value.footer.value.text == ""))
            && r.total == t + FooterChars(r.value.footer) <= TotalLimit
  {
  }

  lemma AuthorStageFacts(e: Embed, t: nat, mode: SliceMode)
    requires t <= TotalLimit && AuthorStage(e, t, mode).Sliced?
    ensures var r := AuthorStage(e, t, mode);
            && r.value == e.(author := r.value.author)
            && r.value.author.Some? == e.author.Some?
            && (e.author.Some? ==>
                  && HasPrefix(e.author.value.name, r.value.author.value.name)
                  && |r.value.author.value.name| <= AuthorNameLimit
                  && r.value.author.value.url == e.author.value.url
                  && r.value.author.value.iconUrl == e.author.value.iconUrl
                  && (t >= TotalLimit ==> r.value.author.value.name == ""))
            && r.total == t + AuthorChars(r.value.author) <= TotalLimit
  {
  }

  /** A completed walk stays within every limit, and its final total is what Discord counts. */
  lemma LimitEmbedBounded(e: Embed, mode: SliceMode)
    requires LimitEmbed(e, mode).Sliced?
    ensures var r := LimitEmbed(e, mode); Bounded(r.value) && r.total == Counted(r.value) <= TotalLimit
  {
    var s1 := TitleStage(e, 0, mode);
    TitleStageFacts(e, 0, mode);
    var s2 := DescriptionStage(s1.value, s1.total, mode);
    DescriptionStageFacts(s1.value, s1.total, mode);
    var s3 := FieldsStage(s2.value, s2.total, mode);
    FieldsStageFacts(s2.value, s2.total, mode);
    var s4 := FooterStage(s3.value, s3.total, mode);
    FooterStageFacts(s3.value, s3.total, mode);
    var s5 := AuthorStage(s4.value, s4.total, mode);
    AuthorStageFacts(s4.value, s4.total, mode);
    var out := s5.value;
    assert out.title == s1.value.title && out.description == s2.value.description;
    assert out.fields == s3.value.fields && out.footer == s4.value.footer;
  }

  /** A completed walk only shortens components and keeps everything else. */
  lemma LimitEmbedTruncates(e: Embed, mode: SliceMode)
    requires LimitEmbed(e, mode).Sliced?
    ensures TruncationOf(LimitEmbed(e, mode).value, e)
  {
    var s1 := TitleStage(e, 0, mode);
    TitleStageFacts(e, 0, mode);
    var s2 := DescriptionStage(s1.value, s1.total, mode);
    DescriptionStageFacts(s1.value, s1.total, mode);
    var s3 := FieldsStage(s2.value, s2.total, mode);
    FieldsStageFacts(s2.value, s2.total, mode);
    var s4 := FooterStage(s3.value, s3.total, mode);
    FooterStageFacts(s3.value, s3.total, mode);
    var s5 := AuthorStage(s4.value, s4.total, mode);
    AuthorStageFacts(s4.value, s4.total, mode);
    var out := s5.value;
    assert out.title == s1.value.title && out.description == s2.value.description;
    assert out.fields == s3.value.fields && out.footer == s4.value.footer;
  }

  /** After a completed walk, the components past the 6000th character are empty. */
  lemma LimitEmbedBlanks(e: Embed, mode: SliceMode)
    requires LimitEmbed(e, mode).Sliced?
    ensures BlankAfterBudget(LimitEmbed(e, mode).value)
  {
    var s1 := TitleStage(e, 0, mode);
    TitleStageFacts(e, 0, mode);
    var s2 := DescriptionStage(s1.value, s1.total, mode);
    DescriptionStageFacts(s1.value, s1.total, mode);
    var s3 := FieldsStage(s2.value, s2.total, mode);
    FieldsStageFacts(s2.value, s2.total, mode);
    var s4 := FooterStage(s3.value, s3.total, mode);
    FooterStageFacts(s3.value, s3.total, mode);
    var s5 := AuthorStage(s4.value, s4.total, mode);
    AuthorStageFacts(s4.value, s4.total, mode);
    var out := s5.value;
    assert out.title == s1.value.title && out.description == s2.value.description;
    assert out.fields == s3.value.fields && out.footer == s4.value.footer;
  }

  /** A completed walk keeps exactly `Kept` of each component, counted from what was kept before it. */
  lemma LimitEmbedKeeps(e: Embed, mode: SliceMode)
    requires LimitEmbed(e, mode).Sliced?
    ensures KeptFrom(LimitEmbed(e, mode).value, e)
  {
    if mode == AsWritten {
      AsWrittenAgreesWhenComplete(e);
    }
    ClampedKeeps(e);
  }

  /** `LimitEmbedKeeps` for the corrected walk. */
  lemma ClampedKeeps(e: Embed)
    ensures KeptFrom(LimitEmbed(e, Clamped).value, e)
  {
    var s1 := TitleStage(e, 0, Clamped);
    var s2 := DescriptionStage(s1.value, s1.total, Clamped);
    var s3 := FieldsStage(s2.value, s2.total, Clamped);
    var s4 := FooterStage(s3.value, s3.total, Clamped);
    var s5 := AuthorStage(s4.value, s4.total, Clamped);
    FrontKeeps(e, s1, s2);
    FieldsStageKeeps(s2.value, s2.total, Clamped);
    BackKeeps(s3.value, s3.total, s4, s5);
    KeptAssembled(e, s2.value, s2.total, s3.value, s3.total, s4.total, s5.value);
  }

  /** The stage-by-stage facts add up to `KeptFrom`: `e2` after the title and description, `e3` after the fields, `out` after footer and author. */
  lemma KeptAssembled(e: Embed, e2: Embed, t2: nat, e3: Embed, t3: nat, t4: nat, out: Embed)
    requires e2 == e.(title := e2.title, description := e2.description)
    requires e2.title == Kept(e.title, 0, TitleLimit)
    requires e2.description == Kept(e.description, |e2.title|, DescriptionLimit)
    requires t2 == |e2.title| + |e2.description|
    requires e3 == e2.(fields := e3.fields)
    requires KeptFields(e3.fields, CutFields(e2.fields), t2) && t3 == t2 + FieldChars(e3.fields)
    requires out == e3.(footer := out.footer, author := out.author)
    requires e3.footer.Some? ==> out.footer == Some(e3.footer.value.(text := Kept(e3.footer.value.text, t3, FooterTextLimit)))
    requires t4 == t3 + FooterChars(out.footer)
    requires e3.author.Some? ==> out.author == Some(e3.author.value.(name := Kept(e3.author.value.name, t4, AuthorNameLimit)))
    ensures KeptFrom(out, e)
  {
  }

  /** Title, then description: each kept exactly, nothing else changed, and the total counts both. */
  lemma FrontKeeps(e: Embed, s1: Sliced<Embed>, s2: Sliced<Embed>)
    requires s1 == TitleStage(e, 0, Clamped)
    requires s2 == DescriptionStage(s1.value, s1.total, Clamped)
    ensures s2.value == e.(title := s2.value.title, description := s2.value.description)
    ensures s2.value.title == Kept(e.title, 0, TitleLimit)
    ensures s2.value.description == Kept(e.description, |s2.value.title|, DescriptionLimit)
    ensures s2.total == |s2.value.title| + |s2.value.description|
  {
  }

  /** Footer, then author: each kept exactly from the total before it, nothing else changed. */
  lemma BackKeeps(e: Embed, t: nat, s4: Sliced<Embed>, s5: Sliced<Embed>)
    requires s4 == FooterStage(e, t, Clamped)
    requires s5 == AuthorStage(s4.value, s4.total, Clamped)
    ensures s5.value == e.(footer := s5.value.footer, author := s5.value.author)
    ensures s5.value.footer.Some? == e.footer.Some?
    ensures e.footer.Some? ==> s5.value.footer == Some(e.footer.value.(text := Kept(e.footer.value.text, t, FooterTextLimit)))
    ensures s4.total == t + FooterChars(s5.value.footer)
    ensures e.author.Some? ==> s5.value.author == Some(e.author.value.(name := Kept(e.author.value.name, s4.total, AuthorNameLimit)))
  {
  }

  /** An embed already within every limit comes through the corrected walk unchanged, its total what Discord counts. */
  lemma LimitEmbedKeepsBounded(e: Embed)
    requires Bounded(e)
    ensures LimitEmbed(e, Clamped) == Sliced(e, Counted(e))
  {
    var t1 := |e.title|;
    var t2 := t1 + |e.description|;
    var t3 := t2 + FieldChars(e.fields);
    var t4 := t3 + FooterChars(e.footer);
    KeptWhole(e.title, 0, TitleLimit);
    assert TitleStage(e, 0, Clamped) == Sliced(e, t1);
    KeptWhole(e.description, t1, DescriptionLimit);
    assert DescriptionStage(e, t1, Clamped) == Sliced(e, t2);
    assert CutFields(e.fields) == e.fields;
    FieldsStepFitting(e.fields, t2);
    assert FieldsStage(e, t2, Clamped) == Sliced(e, t3);
    if e.footer.Some? {
      KeptWhole(e.footer.value.text, t3, FooterTextLimit);
    }
    assert FooterStage(e, t3, Clamped) == Sliced(e, t4);
    if e.author.Some? {
      KeptWhole(e.author.value.name, t4, AuthorNameLimit);
    }
    assert AuthorStage(e, t4, Clamped) == Sliced(e, Counted(e));
  }

  /** Whatever the mode, a completed walk yields a bounded truncation of the input whose components run out at 6000. */
  lemma LimitEmbedBounds(e: Embed, mode: SliceMode)
    requires LimitEmbed(e, mode).Sliced?
    ensures var r := LimitEmbed(e, mode);
            && Bounded(r.value) && TruncationOf(r.value, e) && BlankAfterBudget(r.value)
            && r.total == Counted(r.value) <= TotalLimit
  {
    LimitEmbedBounded(e, mode);
    LimitEmbedTruncates(e, mode);
    LimitEmbedBlanks(e, mode);
  }

  /** The corrected walk always completes. */
  lemma LimitEmbedNeverPanicsClamped(e: Embed)
    ensures LimitEmbed(e, Clamped).Sliced?
  {
    var s1 := TitleStage(e, 0, Clamped);
    var s2 := DescriptionStage(s1.value, s1.total, Clamped);
    FieldsStepNeverPanicsClamped(CutFields(s2.value.fields), s2.total);
  }

  lemma {:induction false} FieldsStepNeverPanicsClamped(fs: seq<Field>, total: nat)
    ensures FieldsStep(fs, total, Clamped).Sliced?
  {
    if fs != [] {
      FieldsStepNeverPanicsClamped(fs[1..], FieldStep(fs[0], total, Clamped).total);
    }
  }

  /** Where the code as written completes, it produces what the corrected walk produces. */
  lemma AsWrittenAgreesWhenComplete(e: Embed)
    requires LimitEmbed(e, AsWritten).Sliced?
    ensures LimitEmbed(e, Clamped) == LimitEmbed(e, AsWritten)
  {
    var s1 := TitleStage(e, 0, AsWritten);
    assert TitleStage(e, 0, Clamped) == s1;
    var s2 := DescriptionStage(s1.value, s1.total, AsWritten);
    assert DescriptionStage(s1.value, s1.total, Clamped) == s2;
    FieldsStepAgree(CutFields(s2.value.fields), s2.total);
    var s3 := FieldsStage(s2.value, s2.total, AsWritten);
    assert FieldsStage(s2.value, s2.total, Clamped) == s3;
    var s4 := FooterStage(s3.value, s3.total, AsWritten);
    assert FooterStage(s3.value, s3.total, Clamped) == s4;
  }

  lemma {:induction false} FieldsStepAgree(fs: seq<Field>, total: nat)
    requires FieldsStep(fs, total, AsWritten).Sliced?
    ensures FieldsStep(fs, total, Clamped) == FieldsStep(fs, total, AsWritten)
  {
    if fs != [] {
      FieldsStepAgree(fs[1..], FieldStep(fs[0], total, AsWritten).total);
    }
  }

  lemma SliceCharsIdempotent(s: string, total: nat, limit: nat, mode: SliceMode)
    requires SliceChars(s, total, limit, mode).Sliced?
    ensures var r := SliceChars(s, total, limit, mode);
            SliceChars(r.value, total, limit, mode) == r
  {
    var r := SliceChars(s, total, limit, mode);
    assert r.value[..|r.value|] == r.value;
  }

  lemma {:induction false} FieldsStepIdempotent(fs: seq<Field>, total: nat, mode: SliceMode)
    requires FieldsStep(fs, total, mode).Sliced?
    ensures var r := FieldsStep(fs, total, mode);
            FieldsStep(r.value, total, mode) == r
  {
    if fs != [] {
      var f := FieldStep(fs[0], total, mode);
      var n := SliceChars(fs[0].name, total, FieldNameLimit, mode);
      SliceCharsIdempotent(fs[0].name, total, FieldNameLimit, mode);
      SliceCharsIdempotent(fs[0].value, n.total, FieldValueLimit, mode);
      assert FieldStep(f.value, total, mode) == f;
      FieldsStepIdempotent(fs[1..], f.total, mode);
      var r := FieldsStep(fs, total, mode);
      assert r.value[0] == f.value && r.value[1..] == FieldsStep(fs[1..], f.total, mode).value;
    }
  }

  lemma TitleStageIdempotent(e: Embed, t: nat, mode: SliceMode, other: Embed)
    requires t < TotalLimit && TitleStage(e, t, mode).Sliced?
    requires other.title == TitleStage(e, t, mode).value.title
    ensures TitleStage(other, t, mode) == Sliced(other, TitleStage(e, t, mode).total)
  {
    if e.title != "" {
      SliceCharsIdempotent(e.title, t, TitleLimit, mode);
    }
  }

  lemma DescriptionStageIdempotent(e: Embed, t: nat, mode: SliceMode, other: Embed)
    requires t < TotalLimit && DescriptionStage(e, t, mode).Sliced?
    requires other.description == DescriptionStage(e, t, mode).value.description
    ensures DescriptionStage(other, t, mode) == Sliced(other, DescriptionStage(e, t, mode).total)
  {
    if e.description != "" {
      SliceCharsIdempotent(e.description, t, DescriptionLimit, mode);
    }
  }

  lemma FieldsStageIdempotent(e: Embed, t: nat, mode: SliceMode, other: Embed)
    requires t <= TotalLimit && FieldsStage(e, t, mode).Sliced?
    requires other.fields == FieldsStage(e, t, mode).value.fields
    ensures FieldsStage(other, t, mode) == Sliced(other, FieldsStage(e, t, mode).total)
  {
    var cut := CutFields(e.fields);
    FieldsStepFacts(cut, t, mode);
    FieldsStepIdempotent(cut, t, mode);
    assert CutFields(other.fields) == other.fields;
  }

  lemma FooterStageIdempotent(e: Embed, t: nat, mode: SliceMode, other: Embed)
    requires FooterStage(e, t, mode).Sliced?
    requires other.footer == FooterStage(e, t, mode).value.footer
    ensures FooterStage(other, t, mode) == Sliced(other, FooterStage(e, t, mode).total)
  {
    if e.footer.Some? {
      SliceCharsIdempotent(e.footer.value.text, t, FooterTextLimit, mode);
    }
  }

  lemma AuthorStageIdempotent(e: Embed, t: nat, mode: SliceMode, other: Embed)
    requires AuthorStage(e, t, mode).Sliced?
    requires other.author == AuthorStage(e, t, mode).value.author
    ensures AuthorStage(other, t, mode) == Sliced(other, AuthorStage(e, t, mode).total)
  {
    if e.author.Some? {
      SliceCharsIdempotent(e.author.value.name, t, AuthorNameLimit, mode);
    }
  }

  /** Normalizing a completed result again changes nothing and counts the same total, in either mode. */
  lemma LimitEmbedIdempotent(e: Embed, mode: SliceMode)
    requires LimitEmbed(e, mode).Sliced?
    ensures LimitEmbed(LimitEmbed(e, mode).value, mode) == LimitEmbed(e, mode)
  {
    var s1 := TitleStage(e, 0, mode);
    TitleStageFacts(e, 0, mode);
    var s2 := DescriptionStage(s1.value, s1.total, mode);
    DescriptionStageFacts(s1.value, s1.total, mode);
    var s3 := FieldsStage(s2.value, s2.total, mode);
    FieldsStageFacts(s2.value, s2.total, mode);
    var s4 := FooterStage(s3.value, s3.total, mode);
    FooterStageFacts(s3.value, s3.total, mode);
    var s5 := AuthorStage(s4.value, s4.total, mode);
    AuthorStageFacts(s4.value, s4.total, mode);
    var out := s5.value;
    TitleStageIdempotent(e, 0, mode, out);
    DescriptionStageIdempotent(s1.value, s1.total, mode, out);
    FieldsStageIdempotent(s2.value, s2.total, mode, out);
    FooterStageIdempotent(s3.value, s3.total, mode, out);
    AuthorStageIdempotent(s4.value, s4.total, mode, out);
  }

  /** As written, a short title panics: the slice is to 256 whatever the title's length. */
  lemma ShortTitlePanics()
    ensures LimitEmbed(Embed("abc", "", "", 0, "", [], None, None), AsWritten) == Panicked
  {
  }

  /** As written, every field name is sliced, so even an empty name panics. */
  lemma EmptyFieldNamePanics()
    ensures LimitEmbed(Embed("", "", "", 0, "", [Field("", "x", false)], None, None), AsWritten) == Panicked
  {
  }

  /** The corrected normalizer yields a bounded truncation of its input whose components run out at 6000, and is idempotent. */
  lemma NormalizeSound(e: Embed)
    ensures Bounded(Normalize(e)) && TruncationOf(Normalize(e), e) && BlankAfterBudget(Normalize(e))
    ensures Normalize(Normalize(e)) == Normalize(e)
  {
    LimitEmbedNeverPanicsClamped(e);
    LimitEmbedBounds(e, Clamped);
    LimitEmbedIdempotent(e, Clamped);
  }

  /** The corrected normalizer keeps exactly the first min(limit, what is left of 6000) bytes of each component. */
  lemma NormalizeKeeps(e: Embed)
    ensures KeptFrom(Normalize(e), e)
  {
    LimitEmbedNeverPanicsClamped(e);
    LimitEmbedKeeps(e, Clamped);
  }

  /** An embed already within every limit is its own normal form. */
  lemma NormalizeFixesBounded(e: Embed)
    requires Bounded(e)
    ensures Normalize(e) == e
  {
    LimitEmbedKeepsBounded(e);
  }

  /**
   * More than 25 fields: the first 25 are kept, in order, each field a
   * truncation of the one it comes from; the tail is dropped, not truncated,
   * and plays no part: the result is that of the first 25 alone.
   */
  lemma ExtraFieldsDropped(e: Embed)
    requires |e.fields| > FieldsMaxCount
    ensures |Normalize(e).fields| == FieldsMaxCount
    ensures forall i :: 0 <= i < FieldsMaxCount ==>
              && HasPrefix(e.fields[i].name, Normalize(e).fields[i].name)
              && HasPrefix(e.fields[i].value, Normalize(e).fields[i].value)
              && Normalize(e).fields[i].inline == e.fields[i].inline
    ensures Normalize(e) == Normalize(e.(fields := e.fields[..FieldsMaxCount]))
  {
    LimitEmbedNeverPanicsClamped(e);
    LimitEmbedBounds(e, Clamped);
    LimitEmbedDropsTail(e);
  }

  /** The walk of an embed with more than 25 fields is the walk of its first 25. */
  lemma LimitEmbedDropsTail(e: Embed)
    requires |e.fields| > FieldsMaxCount
    ensures LimitEmbed(e, Clamped) == LimitEmbed(e.(fields := e.fields[..FieldsMaxCount]), Clamped)
  {
    var head := e.fields[..FieldsMaxCount];
    var e' := e.(fields := head);
    var s1 := TitleStage(e, 0, Clamped);
    var s1' := TitleStage(e', 0, Clamped);
    assert s1' == Sliced(s1.value.(fields := head), s1.total);
    var s2 := DescriptionStage(s1.value, s1.total, Clamped);
    var s2' := DescriptionStage(s1'.value, s1'.total, Clamped);
    assert s2' == Sliced(s2.value.(fields := head), s2.total);
    assert CutFields(s2.value.fields) == head == CutFields(s2'.value.fields);
    assert FieldsStage(s2'.value, s2'.total, Clamped) == FieldsStage(s2.value, s2.total, Clamped);
  }
}
