/**
 * The JavaScript string operations the bots rely on: `trim`, `startsWith`,
 * `split(" ")`, `join(" ")`, `includes`, `replace` of a single character,
 * number formatting and `parseInt`. A string is a sequence of code points.
 */
module Strings {
  import opened Wrappers

  /** The ECMAScript WhiteSpace and LineTerminator code points: what `trim`
      removes and what `parseInt` skips before the number. */
  predicate IsSpace(c: char) {
    var n := c as int;
    n == 0x09 || n == 0x0A || n == 0x0B || n == 0x0C || n == 0x0D || n == 0x20
    || n == 0xA0 || n == 0x1680 || (0x2000 <= n <= 0x200A) || n == 0x2028
    || n == 0x2029 || n == 0x202F || n == 0x205F || n == 0x3000 || n == 0xFEFF
  }

  function TrimStart(s: string): (r: string)
    ensures |r| <= |s| && r == s[|s| - |r|..]
    ensures forall i :: 0 <= i < |s| - |r| ==> IsSpace(s[i])
    ensures r == [] || !IsSpace(r[0])
  {
    if s != [] && IsSpace(s[0]) then TrimStart(s[1..]) else s
  }

  function TrimEnd(s: string): (r: string)
    ensures |r| <= |s| && r == s[..|r|]
    ensures forall i :: |r| <= i < |s| ==> IsSpace(s[i])
    ensures r == [] || !IsSpace(r[|r| - 1])
  {
    if s != [] && IsSpace(s[|s| - 1]) then TrimEnd(s[..|s| - 1]) else s
  }

  /** `String.prototype.trim` */
  function Trim(s: string): (r: string)
    ensures |r| <= |s|
    ensures r == [] || (!IsSpace(r[0]) && !IsSpace(r[|r| - 1]))
  {
    TrimEnd(TrimStart(s))
  }

  /** Trimming twice is trimming once. */
  lemma TrimIdempotent(s: string)
    ensures Trim(Trim(s)) == Trim(s)
  {
    var r := Trim(s);
    assert TrimStart(r) == r;
    assert TrimEnd(r) == r;
  }

  /** `String.prototype.startsWith` */
  predicate StartsWith(s: string, prefix: string) {
    |prefix| <= |s| && s[..|prefix|] == prefix
  }

  /** Position of the first `c` in `s`, or `|s|`. */
  function FindChar(s: string, c: char): (i: nat)
    ensures i <= |s|
    ensures i < |s| ==> s[i] == c
    ensures forall j :: 0 <= j < i ==> s[j] != c
  {
    if s == [] then 0 else if s[0] == c then 0 else 1 + FindChar(s[1..], c)
  }

  /** `String.prototype.split` with a one-character separator: one part more
      than there are separators, and no part holds the separator. */
  function Split(s: string, sep: char): (parts: seq<string>)
    ensures |parts| >= 1
    ensures forall i :: 0 <= i < |parts| ==> sep !in parts[i]
    decreases |s|
  {
    var i := FindChar(s, sep);
    if i == |s| then [s] else [s[..i]] + Split(s[i + 1..], sep)
  }

  /** `Array.prototype.join` with a one-character separator. */
  function Join(parts: seq<string>, sep: char): string
  {
    if parts == [] then "" else if |parts| == 1 then parts[0] else parts[0] + [sep] + Join(parts[1..], sep)
  }

  /** Joining the parts of a split gives back the string. */
  lemma {:induction false} JoinSplit(s: string, sep: char)
    ensures Join(Split(s, sep), sep) == s
    decreases |s|
  {
    var i := FindChar(s, sep);
    if i < |s| {
      JoinSplit(s[i + 1..], sep);
      assert s == s[..i] + [sep] + s[i + 1..];
    }
  }

  /** Splitting a join of separator-free parts gives back the parts. */
  lemma {:induction false} SplitJoin(parts: seq<string>, sep: char)
    requires |parts| >= 1
    requires forall i :: 0 <= i < |parts| ==> sep !in parts[i]
    ensures Split(Join(parts, sep), sep) == parts
    decreases |parts|
  {
    if |parts| > 1 {
      var s := Join(parts, sep);
      assert s == parts[0] + [sep] + Join(parts[1..], sep);
      assert s[|parts[0]|] == sep;
      assert forall j :: 0 <= j < |parts[0]| ==> s[j] == parts[0][j];
      assert FindChar(s, sep) == |parts[0]|;
      assert s[..|parts[0]|] == parts[0];
      assert s[|parts[0]| + 1..] == Join(parts[1..], sep);
      SplitJoin(parts[1..], sep);
    } else {
      assert FindChar(parts[0], sep) == |parts[0]|;
    }
  }

  /** `text.split(" ").slice(1).join(" ")`: the words after the first, or
      `None` when there are none. */
  function ArgText(text: string): Option<string>
  {
    var args := Split(text, ' ')[1..];
    if |args| == 0 then None else Some(Join(args, ' '))
  }

  /** The argument text is everything after the first space, kept verbatim
      (inner and trailing spaces included); it is absent exactly when the
      text has no space. */
  lemma ArgTextIs(text: string)
    ensures ArgText(text).None? <==> ' ' !in text
    ensures ' ' in text ==> ArgText(text) == Some(text[FindChar(text, ' ') + 1..])
  {
    if ' ' in text {
      ArgTextAfterSpace(text);
    } else {
      ArgTextNoSpace(text);
    }
  }

  lemma ArgTextAfterSpace(text: string)
    requires ' ' in text
    ensures ArgText(text) == Some(text[FindChar(text, ' ') + 1..])
  {
    var i := FindChar(text, ' ');
    var rest := text[i + 1..];
    var parts := Split(text, ' ');
    assert parts == [text[..i]] + Split(rest, ' ');
    assert parts[1..] == Split(rest, ' ');
    JoinSplit(rest, ' ');
  }

  lemma ArgTextNoSpace(text: string)
    requires ' ' !in text
    ensures ArgText(text).None?
  {
    assert FindChar(text, ' ') == |text|;
    assert Split(text, ' ') == [text];
  }

  /** `String.prototype.includes` */
  predicate Includes(s: string, sub: string)
    decreases |s|
  {
    StartsWith(s, sub) || (s != [] && Includes(s[1..], sub))
  }

  /** `Includes` holds exactly when `sub` occurs at some position of `s`. */
  lemma {:induction false} IncludesAt(s: string, sub: string, k: nat)
    requires k + |sub| <= |s| && s[k..k + |sub|] == sub
    ensures Includes(s, sub)
    decreases k
  {
    if k > 0 {
      assert s[1..][k - 1..k - 1 + |sub|] == s[k..k + |sub|];
      IncludesAt(s[1..], sub, k - 1);
    }
  }

  /** `s.replace(c, "")` with a one-character pattern: drops the first `c`. */
  function RemoveFirst(s: string, c: char): (r: string)
    ensures c in s ==> |r| == |s| - 1 && multiset(r) + multiset{c} == multiset(s)
    ensures c !in s ==> r == s
  {
    var i := FindChar(s, c);
    if i < |s| then
      assert s == s[..i] + [c] + s[i + 1..];
      s[..i] + s[i + 1..]
    else s
  }

  function DigitChar(d: nat): (c: char)
    requires d < 10
  {
    (d + 48) as char
  }

  /** `String(n)` for a non-negative integer. */
  function NatToString(n: nat): (s: string)
    ensures |s| >= 1
    ensures forall i :: 0 <= i < |s| ==> '0' <= s[i] <= '9'
    ensures s[0] == '0' <==> n == 0
    decreases n
  {
    if n < 10 then [DigitChar(n)] else NatToString(n / 10) + [DigitChar(n % 10)]
  }

  /** `String(i)` for any integer. */
  function IntToString(i: int): string
  {
    if i < 0 then "-" + NatToString(-i) else NatToString(i)
  }

  /** Value of `c` as a hexadecimal digit, or -1. */
  function DigitValue(c: char): int
  {
    if '0' <= c <= '9' then c as int - 48
    else if 'a' <= c <= 'f' then c as int - 87
    else if 'A' <= c <= 'F' then c as int - 55
    else -1
  }

  predicate IsDigitOf(c: char, radix: nat) {
    0 <= DigitValue(c) < radix
  }

  /** Length of the longest prefix of `s` made of digits in `radix`. */
  function DigitRun(s: string, radix: nat): (n: nat)
    ensures n <= |s|
    ensures forall i :: 0 <= i < n ==> IsDigitOf(s[i], radix)
    ensures n < |s| ==> !IsDigitOf(s[n], radix)
  {
    if s != [] && IsDigitOf(s[0], radix) then 1 + DigitRun(s[1..], radix) else 0
  }

  function Value(s: string, radix: nat): nat
    requires forall i :: 0 <= i < |s| ==> IsDigitOf(s[i], radix)
  {
    if s == [] then 0
    else
      assert IsDigitOf(s[|s| - 1], radix);
      Value(s[..|s| - 1], radix) * radix + DigitValue(s[|s| - 1])
  }

  /** The digits at the front of `body`, read in `radix`; `None` if there are none. */
  function ParseDigits(body: string, radix: nat): Option<nat>
  {
    var n := DigitRun(body, radix);
    if n == 0 then None else Some(Value(body[..n], radix))
  }

  /** The unsigned part of `parseInt`: a `0x`/`0X` prefix selects radix 16. */
  function ParseMagnitude(u: string): Option<nat>
  {
    if |u| >= 2 && u[0] == '0' && (u[1] == 'x' || u[1] == 'X') then ParseDigits(u[2..], 16)
    else ParseDigits(u, 10)
  }

  /**
   * `parseInt(s)` without a radix: skip leading white space, take one optional
   * sign, take a `0x`/`0X` prefix as radix 16, then read the longest run of
   * digits. `None` stands for `NaN` (no digit at all); `-0` is 0.
   */
  function ParseInt(s: string): Option<int>
  {
    var t := TrimStart(s);
    if t != [] && t[0] == '-' then
      match ParseMagnitude(t[1..])
      case Some(v) => Some(0 - v as int)
      case None => None
    else if t != [] && t[0] == '+' then
      match ParseMagnitude(t[1..])
      case Some(v) => Some(v)
      case None => None
    else
      match ParseMagnitude(t)
      case Some(v) => Some(v)
      case None => None
  }

  lemma DigitRunIs(s: string, radix: nat, k: nat)
    requires k <= |s|
    requires forall i :: 0 <= i < k ==> IsDigitOf(s[i], radix)
    requires k < |s| ==> !IsDigitOf(s[k], radix)
    ensures DigitRun(s, radix) == k
  {
  }

  lemma {:induction false} ValueOfNatToString(n: nat)
    ensures Value(NatToString(n), 10) == n
    decreases n
  {
    var s := NatToString(n);
    if n >= 10 {
      ValueOfNatToString(n / 10);
      assert s[..|s| - 1] == NatToString(n / 10);
    }
  }

  /** The unsigned reading of a decimal form followed by a non-digit. */
  lemma MagnitudePrefix(n: nat, rest: string)
    requires rest == [] || !IsDigitOf(rest[0], 10)
    requires n == 0 ==> rest == [] || (rest[0] != 'x' && rest[0] != 'X')
    ensures ParseMagnitude(NatToString(n) + rest) == Some(n)
  {
    var d := NatToString(n);
    var s := d + rest;
    assert |d| >= 2 ==> s[0] != '0';
    assert |d| == 1 && n == 0 && |s| >= 2 ==> s[1] == rest[0];
    assert forall i :: 0 <= i < |d| ==> s[i] == d[i];
    assert |d| < |s| ==> s[|d|] == rest[0];
    DigitRunIs(s, 10, |d|);
    assert s[..|d|] == d;
    ValueOfNatToString(n);
  }

  /** `parseInt` reads back the decimal form of a non-negative number, and
      stops at the first character after it that is not a decimal digit
      (unless the number is 0 and an `x` follows, which makes a hex prefix). */
  lemma ParseIntPrefix(n: nat, rest: string)
    requires rest == [] || !IsDigitOf(rest[0], 10)
    requires n == 0 ==> rest == [] || (rest[0] != 'x' && rest[0] != 'X')
    ensures ParseInt(NatToString(n) + rest) == Some(n)
  {
    var s := NatToString(n) + rest;
    assert s[0] == NatToString(n)[0];
    assert TrimStart(s) == s;
    MagnitudePrefix(n, rest);
  }

  /** `parseInt` reads back `String(i)` for every integer `i`. */
  lemma ParseIntRoundTrip(i: int)
    ensures ParseInt(IntToString(i)) == Some(i)
  {
    if i >= 0 {
      ParseIntPrefix(i, "");
      assert NatToString(i) + "" == NatToString(i);
    } else {
      var d := NatToString(-i);
      var s := IntToString(i);
      assert TrimStart(s) == s;
      assert s[1..] == d + "";
      MagnitudePrefix(-i, "");
    }
  }

  /** `parseInt` gives `NaN` for a string that starts with something other
      than white space, a sign or a digit. */
  lemma ParseIntNaN(s: string)
    requires s == [] || (!IsSpace(s[0]) && s[0] != '-' && s[0] != '+' && !IsDigitOf(s[0], 10))
    ensures ParseInt(s) == None
  {
    assert TrimStart(s) == s;
  }
}
