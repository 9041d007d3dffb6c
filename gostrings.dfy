/**
 * The parts of Go's `strings` and `fmt` packages that the relay uses.
 * A Dafny `string` stands for a Go string with one `char` per byte, so `|s|`
 * is Go's `len(s)` and `s[..n]` is Go's `s[:n]`.
 */
module GoStrings {

  predicate HasPrefix(s: string, p: string) {
    |p| <= |s| && s[..|p|] == p
  }

  predicate HasSuffix(s: string, p: string) {
    |p| <= |s| && s[|s| - |p|..] == p
  }

  /** `strings.Join(parts, sep)`. */
  function Join(parts: seq<string>, sep: string): (r: string)
    ensures parts == [] ==> r == ""
    ensures |parts| == 1 ==> r == parts[0]
    ensures |parts| > 1 ==> HasPrefix(r, parts[0] + sep)
  {
    if parts == [] then ""
    else if |parts| == 1 then parts[0]
    else
      var rest := Join(parts[1..], sep);
      assert (parts[0] + sep + rest)[..|parts[0] + sep|] == parts[0] + sep;
      parts[0] + sep + rest
  }

  /** Joining a part in front of a non-empty list puts the separator between them. */
  lemma JoinCons(p: string, rest: seq<string>, sep: string)
    requires rest != []
    ensures Join([p] + rest, sep) == p + sep + Join(rest, sep)
  {
    assert ([p] + rest)[1..] == rest;
  }

  /** Joining one more part appends the separator and that part. */
  lemma {:induction false} JoinSnoc(parts: seq<string>, p: string, sep: string)
    ensures Join(parts + [p], sep) == if parts == [] then p else Join(parts, sep) + sep + p
  {
    if |parts| > 1 {
      assert (parts + [p])[1..] == parts[1..] + [p];
      JoinSnoc(parts[1..], p, sep);
    } else if |parts| == 1 {
      assert (parts + [p])[1..] == [p];
    }
  }

  /**
   * `strings.Split(s, sep)` for a one-byte separator, the reference that
   * `Join` is checked against: the pieces between the separators, in order.
   */
  function Split(s: string, sep: char): (r: seq<string>)
    ensures |r| >= 1
    ensures sep !in s ==> r == [s]
    decreases |s|
  {
    if s == [] then [""]
    else
      var rest := Split(s[1..], sep);
      assert sep !in s ==> sep !in s[1..] && [s[0]] + s[1..] == s;
      if s[0] == sep then [""] + rest
      else [[s[0]] + rest[0]] + rest[1..]
  }

  /** A piece free of the separator is glued to the first piece of what follows it. */
  lemma {:induction false} SplitPrepend(p: string, s: string, sep: char)
    requires sep !in p
    ensures var r := Split(s, sep);
            Split(p + s, sep) == [p + r[0]] + r[1..]
    decreases |p|
  {
    if p != [] {
      assert (p + s)[0] == p[0] && (p + s)[1..] == p[1..] + s;
      SplitPrepend(p[1..], s, sep);
      assert [p[0]] + (p[1..] + Split(s, sep)[0]) == p + Split(s, sep)[0];
    } else {
      var r := Split(s, sep);
      assert p + s == s && p + r[0] == r[0] && [r[0]] + r[1..] == r;
    }
  }

  /** Splitting a join recovers the parts, when no part holds the separator. */
  lemma {:induction false} SplitJoin(parts: seq<string>, sep: char)
    requires parts != []
    requires forall i :: 0 <= i < |parts| ==> sep !in parts[i]
    ensures Split(Join(parts, [sep]), sep) == parts
  {
    if |parts| > 1 {
      var rest := Join(parts[1..], [sep]);
      SplitJoin(parts[1..], sep);
      assert parts[0] + [sep] + rest == parts[0] + ([sep] + rest);
      SplitPrepend(parts[0], [sep] + rest, sep);
      assert ([sep] + rest)[0] == sep && ([sep] + rest)[1..] == rest;
      assert Split([sep] + rest, sep) == [""] + parts[1..];
      assert parts[0] + "" == parts[0];
      assert [parts[0]] + parts[1..] == parts;
    }
  }

  /** A byte found in neither the parts nor the separator is not in their join. */
  lemma {:induction false} JoinAvoids(parts: seq<string>, sep: string, c: char)
    requires c !in sep
    requires forall i :: 0 <= i < |parts| ==> c !in parts[i]
    ensures c !in Join(parts, sep)
  {
    if |parts| > 1 {
      JoinAvoids(parts[1..], sep, c);
    }
  }

  /** `fmt.Sprintln(ops...)` for string operands: operands separated by one space, then a newline. */
  function Sprintln(ops: seq<string>): (r: string)
    ensures |r| >= 1 && r[|r| - 1] == '\n'
    ensures r[..|r| - 1] == Join(ops, " ")
  {
    Join(ops, " ") + "\n"
  }

  function CountSpaces(s: string): nat {
    if s == [] then 0 else (if s[0] == ' ' then 1 else 0) + CountSpaces(s[1..])
  }

  /** `strings.ReplaceAll(s, " ", "%20")`. */
  function EscapeSpaces(s: string): (r: string)
    ensures ' ' !in r
    ensures |r| == |s| + 2 * CountSpaces(s)
    ensures ' ' !in s ==> r == s
  {
    if s == [] then ""
    else
      var rest := EscapeSpaces(s[1..]);
      if s[0] == ' ' then "%20" + rest else [s[0]] + rest
  }

  /** Escaping spaces twice changes nothing more. */
  lemma EscapeSpacesIdempotent(s: string)
    ensures EscapeSpaces(EscapeSpaces(s)) == EscapeSpaces(s)
  {
  }

  /** ASCII case folding; Go's `unicode.ToLower` restricted to ASCII letters. */
  function LowerChar(c: char): (d: char)
    ensures !('A' <= d <= 'Z')
    ensures !('A' <= c <= 'Z') ==> d == c
  {
    if 'A' <= c <= 'Z' then (c as int + 32) as char else c
  }

  /** `strings.ToLower(s)` on ASCII text. */
  function ToLower(s: string): (r: string)
    ensures |r| == |s|
    ensures forall i :: 0 <= i < |s| ==> r[i] == LowerChar(s[i])
  {
    if s == [] then "" else [LowerChar(s[0])] + ToLower(s[1..])
  }

  /** Lower-casing is idempotent and leaves no upper-case ASCII letter. */
  lemma ToLowerIdempotent(s: string)
    ensures ToLower(ToLower(s)) == ToLower(s)
    ensures forall i :: 0 <= i < |s| ==> !('A' <= ToLower(s)[i] <= 'Z')
  {
  }

  /** `if len(s) > n { s = s[:n] + suffix }`, the truncation every formatter repeats. */
  function Truncate(s: string, n: nat, suffix: string): (r: string)
    ensures |s| <= n ==> r == s
    ensures |s| > n ==> |r| == n + |suffix| && HasPrefix(r, s[..n]) && HasSuffix(r, suffix)
    ensures |r| <= if |s| <= n then n else n + |suffix|
  {
    if |s| > n then
      assert (s[..n] + suffix)[..n] == s[..n];
      assert (s[..n] + suffix)[n..] == suffix;
      s[..n] + suffix
    else s
  }

  function DigitChar(d: nat): char
    requires d < 10
  {
    ['0', '1', '2', '3', '4', '5', '6', '7', '8', '9'][d]
  }

  function DigitValue(c: char): nat {
    if '0' <= c <= '9' then c as int - '0' as int else 0
  }

  /** Decimal digits of a natural number, as `fmt.Sprint` prints it. */
  function NatToString(n: nat): (r: string)
    ensures |r| >= 1
    ensures forall i :: 0 <= i < |r| ==> '0' <= r[i] <= '9'
  {
    if n < 10 then [DigitChar(n)] else NatToString(n / 10) + [DigitChar(n % 10)]
  }

  /** Reads decimal digits back; the partner of NatToString. */
  function ParseDigits(s: string): nat {
    if s == [] then 0 else 10 * ParseDigits(s[..|s| - 1]) + DigitValue(s[|s| - 1])
  }

  lemma {:induction false} ParseNatToString(n: nat)
    ensures ParseDigits(NatToString(n)) == n
  {
    if n >= 10 {
      var s := NatToString(n);
      assert s[..|s| - 1] == NatToString(n / 10);
      ParseNatToString(n / 10);
    }
  }

  /** `fmt.Sprint` of a Go `int`. */
  function IntToString(i: int): (r: string)
    ensures |r| >= 1
    ensures (r[0] == '-') <==> i < 0
  {
    if i < 0 then "-" + NatToString(-i) else NatToString(i)
  }

}
