/**
 * The JavaScript string and number primitives the handlers rely on:
 * `String.prototype.trim`, ASCII lower-casing, `split` on one character,
 * decimal rendering of integers, `parseInt` without a radix,
 * `String.prototype.padStart` and `Math.ceil` of a quotient.
 */
module Text {
  import opened Wrappers

  /** The characters matched by `\s` in a JavaScript regular expression,
    * which are also the characters `trim` removes. */
  predicate IsSpace(c: char) {
    c == ' ' || c == '\t' || c == '\n' || c == '\r' || c == '\U{000B}' || c == '\U{000C}'
    || c == '\U{00A0}' || c == '\U{1680}' || ('\U{2000}' <= c <= '\U{200A}')
    || c == '\U{2028}' || c == '\U{2029}' || c == '\U{202F}' || c == '\U{205F}'
    || c == '\U{3000}' || c == '\U{FEFF}'
  }

  predicate IsDigit(c: char) { '0' <= c <= '9' }

  /** The characters matched by `\w`. */
  predicate IsWordChar(c: char) {
    ('a' <= c <= 'z') || ('A' <= c <= 'Z') || IsDigit(c) || c == '_'
  }

  predicate AllDigits(s: string) {
    forall i :: 0 <= i < |s| ==> IsDigit(s[i])
  }

  function TrimStart(s: string): (t: string)
    ensures |t| <= |s| && t == s[|s| - |t|..]
    ensures |t| > 0 ==> !IsSpace(t[0])
    ensures forall i :: 0 <= i < |s| - |t| ==> IsSpace(s[i])
    decreases |s|
  {
    if |s| > 0 && IsSpace(s[0]) then TrimStart(s[1..]) else s
  }

  function TrimEnd(s: string): (t: string)
    ensures |t| <= |s| && t == s[..|t|]
    ensures |t| > 0 ==> !IsSpace(t[|t| - 1])
    ensures forall i :: |t| <= i < |s| ==> IsSpace(s[i])
    decreases |s|
  {
    if |s| > 0 && IsSpace(s[|s| - 1]) then TrimEnd(s[..|s| - 1]) else s
  }

  /** `String.prototype.trim`. */
  function Trim(s: string): string {
    TrimEnd(TrimStart(s))
  }

  /** What `trim` keeps is a contiguous piece of the input, every character it
    * drops is whitespace, and the piece neither starts nor ends with whitespace. */
  lemma TrimSpec(s: string)
    ensures var t := Trim(s);
      exists a, b :: 0 <= a <= b <= |s| && t == s[a..b]
        && (forall i :: 0 <= i < a ==> IsSpace(s[i]))
        && (forall i :: b <= i < |s| ==> IsSpace(s[i]))
    ensures var t := Trim(s); |t| > 0 ==> !IsSpace(t[0]) && !IsSpace(t[|t| - 1])
  {
    var u := TrimStart(s);
    var t := TrimEnd(u);
    var a := |s| - |u|;
    var b := a + |t|;
    assert t == s[a..b];
    if |t| > 0 {
      assert t[0] == u[0];
    }
  }

  lemma {:induction false} TrimStartOfClean(s: string)
    requires |s| == 0 || !IsSpace(s[0])
    ensures TrimStart(s) == s
  {
  }

  lemma {:induction false} TrimEndOfClean(s: string)
    requires |s| == 0 || !IsSpace(s[|s| - 1])
    ensures TrimEnd(s) == s
  {
  }

  /** Trimming twice is trimming once. */
  lemma TrimIdempotent(s: string)
    ensures Trim(Trim(s)) == Trim(s)
  {
    var u := TrimStart(s);
    var t := TrimEnd(u);
    if |t| > 0 {
      assert t[0] == u[0];
    }
    TrimStartOfClean(t);
    TrimEndOfClean(t);
  }

  function LowerChar(c: char): (d: char)
    ensures 'A' <= c <= 'Z' ==> d as int == c as int + 32
    ensures !('A' <= c <= 'Z') ==> d == c
  {
    if 'A' <= c <= 'Z' then (c as int + 32) as char else c
  }

  /** `String.prototype.toLowerCase`, restricted to the ASCII letters. */
  function ToLower(s: string): (t: string)
    ensures |t| == |s|
    ensures forall i :: 0 <= i < |s| ==> t[i] == LowerChar(s[i])
  {
    seq(|s|, i requires 0 <= i < |s| => LowerChar(s[i]))
  }

  /** Lower-casing is idempotent and leaves no upper-case ASCII letter. */
  lemma ToLowerIdempotent(s: string)
    ensures ToLower(ToLower(s)) == ToLower(s)
    ensures forall i :: 0 <= i < |s| ==> !('A' <= ToLower(s)[i] <= 'Z')
  {
  }

  /** Lower-casing keeps whitespace where it was. */
  lemma ToLowerKeepsSpaces(s: string)
    ensures forall i :: 0 <= i < |s| ==> (IsSpace(ToLower(s)[i]) <==> IsSpace(s[i]))
  {
  }

  /** `s.split(sep)` for a one-character separator. */
  function Split(s: string, sep: char): (parts: seq<string>)
    ensures |parts| >= 1
    decreases |s|
  {
    if |s| == 0 then [""]
    else
      var rest := Split(s[1..], sep);
      if s[0] == sep then [""] + rest
      else [[s[0]] + rest[0]] + rest[1..]
  }

  /** No piece of a split holds the separator. */
  lemma {:induction false} SplitPartsFree(s: string, sep: char)
    ensures forall i :: 0 <= i < |Split(s, sep)| ==> sep !in Split(s, sep)[i]
    decreases |s|
  {
    if |s| > 0 {
      SplitPartsFree(s[1..], sep);
    }
  }

  /** `parts.join(sep)`. */
  function Join(parts: seq<string>, sep: char): string
    decreases |parts|
  {
    if |parts| == 0 then ""
    else if |parts| == 1 then parts[0]
    else parts[0] + [sep] + Join(parts[1..], sep)
  }

  /** Joining the pieces of a split gives back the original string. */
  lemma {:induction false} JoinSplit(s: string, sep: char)
    ensures Join(Split(s, sep), sep) == s
    decreases |s|
  {
    if |s| > 0 {
      var rest := Split(s[1..], sep);
      JoinSplit(s[1..], sep);
      if s[0] == sep {
        assert Split(s, sep) == [""] + rest;
        assert s == [sep] + s[1..];
      } else {
        var parts := Split(s, sep);
        assert parts == [[s[0]] + rest[0]] + rest[1..];
        if |rest| == 1 {
          assert s == [s[0]] + rest[0];
        } else {
          assert parts[1..] == rest[1..];
          assert Join(rest, sep) == rest[0] + [sep] + Join(rest[1..], sep);
          assert s == [s[0]] + s[1..];
        }
      }
    }
  }

  /** A string with no separator in it is not split. */
  lemma {:induction false} SplitNoSep(s: string, sep: char)
    requires sep !in s
    ensures Split(s, sep) == [s]
    decreases |s|
  {
    if |s| > 0 {
      SplitNoSep(s[1..], sep);
      assert s == [s[0]] + s[1..];
    }
  }

  /** The pieces of a split hold only characters of the string. */
  lemma {:induction false} SplitChars(s: string, sep: char)
    ensures forall i, c :: 0 <= i < |Split(s, sep)| && c in Split(s, sep)[i] ==> c in s
    decreases |s|
  {
    if |s| > 0 {
      SplitChars(s[1..], sep);
      forall c | c in s[1..] ensures c in s { }
    }
  }

  /** Splitting around one separator splits each side on its own. */
  lemma {:induction false} SplitAppend(a: string, b: string, sep: char)
    ensures Split(a + [sep] + b, sep) == Split(a, sep) + Split(b, sep)
    decreases |a|
  {
    if |a| == 0 {
      assert a + [sep] + b == [sep] + b;
    } else {
      var s := a + [sep] + b;
      assert s[0] == a[0] && s[1..] == a[1..] + [sep] + b;
      SplitAppend(a[1..], b, sep);
      SplitCons(a, s, sep, Split(b, sep));
    }
  }

  /** One step of `SplitAppend`: `a` and `s` share their first character,
    * and the split of `s`'s tail extends the split of `a`'s tail by `more`. */
  lemma SplitCons(a: string, s: string, sep: char, more: seq<string>)
    requires |a| > 0 && |s| > 0 && s[0] == a[0]
    requires Split(s[1..], sep) == Split(a[1..], sep) + more
    ensures Split(s, sep) == Split(a, sep) + more
  {
    var rest, left := Split(s[1..], sep), Split(a[1..], sep);
    if a[0] != sep {
      var head := [a[0]] + left[0];
      assert rest[0] == left[0] && rest[1..] == left[1..] + more;
      assert Split(s, sep) == [head] + rest[1..];
      assert Split(a, sep) == [head] + left[1..];
      ConsAppend(head, left[1..], more);
    } else {
      var empty: string := [];
      assert Split(s, sep) == [empty] + rest;
      assert Split(a, sep) == [empty] + left;
      ConsAppend(empty, left, more);
    }
  }

  lemma ConsAppend<T>(h: T, y: seq<T>, z: seq<T>)
    ensures [h] + (y + z) == ([h] + y) + z
  {
  }

  /** Whether `sub` occurs in `s` (`String.prototype.includes`). */
  predicate Contains(s: string, sub: string) {
    exists i :: 0 <= i <= |s| - |sub| && OccursAt(s, sub, i)
  }

  predicate OccursAt(s: string, sub: string, i: int) {
    0 <= i <= |s| - |sub| && s[i..i + |sub|] == sub
  }

  predicate StartsWith(s: string, prefix: string) {
    |prefix| <= |s| && s[..|prefix|] == prefix
  }

  function DigitChar(d: nat): (c: char)
    requires d < 10
    ensures IsDigit(c) && c as int - '0' as int == d
  {
    ('0' as int + d) as char
  }

  function DigitValue(c: char): (d: nat)
    requires IsDigit(c)
    ensures d < 10 && DigitChar(d) == c
  {
    c as int - '0' as int
  }

  /** `String(n)` for a non-negative integer. */
  function NatToString(n: nat): (s: string)
    ensures |s| >= 1 && AllDigits(s)
    ensures |s| > 1 ==> s[0] != '0'
    decreases n
  {
    if n < 10 then [DigitChar(n)] else NatToString(n / 10) + [DigitChar(n % 10)]
  }

  /** `String(i)` for any integer. */
  function IntToString(i: int): string {
    if i < 0 then "-" + NatToString(-i) else NatToString(i)
  }

  /** The value of a string of decimal digits. */
  function ParseDigits(s: string): nat
    requires AllDigits(s)
    decreases |s|
  {
    if |s| == 0 then 0 else ParseDigits(s[..|s| - 1]) * 10 + DigitValue(s[|s| - 1])
  }

  /** Reading back a rendered number gives the number. */
  lemma {:induction false} ParseNatToString(n: nat)
    ensures ParseDigits(NatToString(n)) == n
    decreases n
  {
    if n >= 10 {
      var s := NatToString(n);
      assert s[..|s| - 1] == NatToString(n / 10);
      ParseNatToString(n / 10);
    }
  }

  /** Rendering is injective: distinct numbers give distinct strings. */
  lemma NatToStringInjective(m: nat, n: nat)
    requires NatToString(m) == NatToString(n)
    ensures m == n
  {
    ParseNatToString(m);
    ParseNatToString(n);
  }

  function HexValue(c: char): Option<nat> {
    if IsDigit(c) then Some(DigitValue(c))
    else if 'a' <= c <= 'f' then Some(c as int - 'a' as int + 10)
    else if 'A' <= c <= 'F' then Some(c as int - 'A' as int + 10)
    else None
  }

  /** The longest prefix of `s` made of decimal digits. */
  function DigitPrefix(s: string): (p: string)
    ensures |p| <= |s| && p == s[..|p|] && AllDigits(p)
    ensures |p| < |s| ==> !IsDigit(s[|p|])
    decreases |s|
  {
    if |s| > 0 && IsDigit(s[0]) then [s[0]] + DigitPrefix(s[1..]) else ""
  }

  /** The value of the longest prefix of hexadecimal digits, with its length. */
  function HexPrefix(s: string, acc: nat): (r: (nat, nat))
    ensures r.1 <= |s|
    decreases |s|
  {
    if |s| > 0 && HexValue(s[0]).Some? then
      var r := HexPrefix(s[1..], acc * 16 + HexValue(s[0]).value);
      (r.0, r.1 + 1)
    else (acc, 0)
  }

  /** The magnitude `parseInt` reads once whitespace and sign are gone:
    * a `0x`/`0X` prefix switches to hexadecimal, and no digit at all is NaN. */
  function ParseMagnitude(s: string): Option<nat> {
    if |s| >= 2 && s[0] == '0' && (s[1] == 'x' || s[1] == 'X') then
      var r := HexPrefix(s[2..], 0);
      if r.1 == 0 then None else Some(r.0)
    else
      var p := DigitPrefix(s);
      if |p| == 0 then None else Some(ParseDigits(p))
  }

  /** `parseInt(s)` with no radix; `None` stands for NaN. */
  function ParseInt(s: string): Option<int> {
    var t := TrimStart(s);
    if |t| > 0 && t[0] == '-' then
      match ParseMagnitude(t[1..])
      case Some(m) => Some(-(m as int))
      case None => None
    else if |t| > 0 && t[0] == '+' then ParseMagnitude(t[1..])
    else ParseMagnitude(t)
  }

  /** The value of the longest prefix of decimal digits; `None` when there is none. */
  function DecimalPrefix(s: string): Option<nat> {
    var p := DigitPrefix(s);
    if |p| == 0 then None else Some(ParseDigits(p))
  }

  /** `parseInt(s, 10)`: as `ParseInt`, but a `0x` prefix is read as the digit 0. */
  function ParseInt10(s: string): Option<int> {
    var t := TrimStart(s);
    if |t| > 0 && t[0] == '-' then
      match DecimalPrefix(t[1..])
      case Some(m) => Some(-(m as int))
      case None => None
    else if |t| > 0 && t[0] == '+' then DecimalPrefix(t[1..])
    else DecimalPrefix(t)
  }

  lemma DigitPrefixOfDigits(s: string)
    requires AllDigits(s)
    ensures DigitPrefix(s) == s
  {
  }

  /** The magnitude of a rendered natural number is that number. */
  lemma ParseMagnitudeOfNat(n: nat)
    ensures ParseMagnitude(NatToString(n)) == Some(n)
  {
    var d := NatToString(n);
    ParseNatToString(n);
    DigitPrefixOfDigits(d);
    assert IsDigit(d[0]);
    if |d| >= 2 {
      assert d[0] != '0';
    }
  }

  /** `parseInt` reads back every rendered integer. */
  lemma ParseIntOfIntToString(i: int)
    ensures ParseInt(IntToString(i)) == Some(i)
  {
    var n: nat := if i < 0 then -i else i;
    var d := NatToString(n);
    ParseMagnitudeOfNat(n);
    assert IsDigit(d[0]);
    if i < 0 {
      var s := "-" + d;
      assert s[0] == '-' && s[1..] == d;
      TrimStartOfClean(s);
      assert ParseInt(s) == Some(-(n as int));
    } else {
      TrimStartOfClean(d);
      assert ParseInt(d) == ParseMagnitude(d);
    }
  }

  lemma DecimalPrefixOfNat(n: nat)
    ensures DecimalPrefix(NatToString(n)) == Some(n)
  {
    ParseNatToString(n);
    DigitPrefixOfDigits(NatToString(n));
  }

  /** `parseInt(s, 10)` reads back every rendered integer too. */
  lemma ParseInt10OfIntToString(i: int)
    ensures ParseInt10(IntToString(i)) == Some(i)
  {
    var n: nat := if i < 0 then -i else i;
    var d := NatToString(n);
    DecimalPrefixOfNat(n);
    assert IsDigit(d[0]);
    if i < 0 {
      var s := "-" + d;
      assert s[0] == '-' && s[1..] == d;
      TrimStartOfClean(s);
      assert ParseInt10(s) == Some(-(n as int));
    } else {
      TrimStartOfClean(d);
      assert ParseInt10(d) == DecimalPrefix(d);
    }
  }

  /** `parseInt` of text with no digit in it is NaN. */
  lemma ParseIntNoDigit(s: string)
    requires forall i :: 0 <= i < |s| ==> !IsDigit(s[i])
    ensures ParseInt(s) == None
  {
    var t := TrimStart(s);
    assert forall i :: 0 <= i < |t| ==> t[i] == s[|s| - |t| + i];
  }

  /** `String(n).padStart(width, c)`. */
  function PadStart(s: string, width: nat, c: char): (t: string)
    ensures |t| == if |s| >= width then |s| else width
    ensures t[|t| - |s|..] == s
    ensures forall i :: 0 <= i < |t| - |s| ==> t[i] == c
  {
    if |s| >= width then s else seq(width - |s|, _ => c) + s
  }

  /** The last `n` characters of `s` (`s.slice(-n)` for a positive `n`). */
  function LastChars(s: string, n: nat): (t: string)
    ensures |t| == if |s| < n then |s| else n
    ensures t == s[|s| - |t|..]
  {
    if |s| < n then s else s[|s| - n..]
  }

  /** `Math.floor(a / b)` for integers; `b` must not be 0. */
  function FloorDiv(a: int, b: int): (q: int)
    requires b != 0
    ensures b > 0 ==> q * b <= a < (q + 1) * b
    ensures b < 0 ==> q * b >= a > (q + 1) * b
  {
    if b > 0 then a / b else (-a) / (-b)
  }

  /** `Math.ceil(a / b)`, where a zero divisor gives an infinite or NaN
    * result, modelled as `None`. */
  function CeilDiv(a: int, b: int): (r: Option<int>)
    ensures b == 0 <==> r.None?
    ensures b > 0 ==> r.Some? && (r.value - 1) * b < a <= r.value * b
    ensures b < 0 ==> r.Some? && (r.value - 1) * b > a >= r.value * b
  {
    if b == 0 then None else Some(-FloorDiv(-a, b))
  }
}
