/**
 * The regular expressions the account schemas and handlers test strings
 * against, each written as a grammar that follows the expression and
 * proved equal to a direct description of the strings it accepts.
 */
module Patterns {
  import Text

  // ---------------------------------------------------------------------
  // The e-mail pattern `^\w+([\.-]?\w+)*@\w+([\.-]?\w+)*(\.\w{2,3})+$`

  predicate IsSep(c: char) { c == '.' || c == '-' }

  /** `\w+([\.-]?\w+)*`, read from the left: a word character followed by
    * nothing, by more of the same, or by one separator and more of the same. */
  predicate Words(s: string)
    decreases |s|
  {
    |s| > 0 && Text.IsWordChar(s[0])
    && (|s| == 1 || Words(s[1..]) || (IsSep(s[1]) && Words(s[2..])))
  }

  /** `(\.\w{2,3})+`. */
  predicate Suffixes(s: string)
    decreases |s|
  {
    |s| >= 3 && s[0] == '.' && Text.IsWordChar(s[1]) && Text.IsWordChar(s[2])
    && (|s| == 3 || Suffixes(s[3..]) || (Text.IsWordChar(s[3]) && (|s| == 4 || Suffixes(s[4..]))))
  }

  /** The part after the '@': a split, searched from the left, into
    * `\w+([\.-]?\w+)*` and `(\.\w{2,3})+`. */
  predicate Domain(s: string) {
    DomainFrom(s, 1)
  }

  predicate DomainFrom(s: string, i: nat)
    decreases |s| - i
  {
    i < |s| && ((Words(s[..i]) && Suffixes(s[i..])) || DomainFrom(s, i + 1))
  }

  /** The e-mail pattern of both user schemas: a split, searched from the
    * left, at an '@' between the local part and the domain. */
  predicate Email(s: string) {
    EmailFrom(s, 1)
  }

  predicate EmailFrom(s: string, i: nat)
    decreases |s| - i
  {
    i < |s| && ((s[i] == '@' && Words(s[..i]) && Domain(s[i + 1..])) || EmailFrom(s, i + 1))
  }

  lemma {:induction false} DomainFromSpec(s: string, i: nat)
    ensures DomainFrom(s, i) <==> exists j :: i <= j < |s| && Words(s[..j]) && Suffixes(s[j..])
    decreases |s| - i
  {
    if i < |s| {
      DomainFromSpec(s, i + 1);
    }
  }

  lemma {:induction false} EmailFromSpec(s: string, i: nat)
    ensures EmailFrom(s, i) <==> exists j :: i <= j < |s| && s[j] == '@' && Words(s[..j]) && Domain(s[j + 1..])
    decreases |s| - i
  {
    if i < |s| {
      EmailFromSpec(s, i + 1);
    }
  }

  /** The same languages described directly: a dotted name starts and ends
    * with a word character, holds only word characters, dots and dashes,
    * and never two separators side by side. */
  predicate Dotted(s: string) {
    |s| > 0 && Text.IsWordChar(s[0]) && Text.IsWordChar(s[|s| - 1])
    && (forall k :: 0 <= k < |s| ==> Text.IsWordChar(s[k]) || IsSep(s[k]))
    && (forall k :: 0 <= k < |s| - 1 && IsSep(s[k]) ==> Text.IsWordChar(s[k + 1]))
  }

  /** A dotted name whose last separator is a dot followed by two or three
    * word characters. */
  predicate DomainShape(s: string) {
    Dotted(s)
    && exists j :: 0 < j < |s| && s[j] == '.' && 2 <= |s| - j - 1 <= 3
                   && forall k :: j < k < |s| ==> Text.IsWordChar(s[k])
  }

  predicate EmailShape(s: string) {
    exists i :: 0 < i < |s| && s[i] == '@' && Dotted(s[..i]) && DomainShape(s[i + 1..])
  }

  lemma {:induction false} WordsDotted(s: string)
    ensures Words(s) <==> Dotted(s)
    decreases |s|
  {
    if |s| >= 2 {
      WordsDotted(s[1..]);
      WordsDotted(s[2..]);
      if Dotted(s) && IsSep(s[1]) {
        assert s[|s| - 1] == s[2..][|s| - 3];
        assert Dotted(s[2..]) by {
          forall k | 0 <= k < |s| - 2
            ensures Text.IsWordChar(s[2..][k]) || IsSep(s[2..][k])
          {
            assert s[2..][k] == s[k + 2];
          }
          forall k | 0 <= k < |s| - 3 && IsSep(s[2..][k])
            ensures Text.IsWordChar(s[2..][k + 1])
          {
            assert s[2..][k] == s[k + 2] && s[2..][k + 1] == s[k + 3];
          }
        }
      }
      if Dotted(s) && !IsSep(s[1]) {
        assert Dotted(s[1..]) by {
          forall k | 0 <= k < |s| - 1
            ensures Text.IsWordChar(s[1..][k]) || IsSep(s[1..][k])
          {
            assert s[1..][k] == s[k + 1];
          }
          forall k | 0 <= k < |s| - 2 && IsSep(s[1..][k])
            ensures Text.IsWordChar(s[1..][k + 1])
          {
            assert s[1..][k] == s[k + 1] && s[1..][k + 1] == s[k + 2];
          }
        }
      }
      if Words(s) {
        if Words(s[1..]) {
          DottedCons(s, 1);
        } else {
          DottedCons(s, 2);
        }
      }
    }
  }

  /** A word character, then at most one separator, then a dotted name, is
    * a dotted name. */
  lemma DottedCons(s: string, n: nat)
    requires 1 <= n <= 2 && |s| > n && Text.IsWordChar(s[0]) && Dotted(s[n..])
    requires n == 2 ==> IsSep(s[1])
    ensures Dotted(s)
  {
    assert s[|s| - 1] == s[n..][|s| - 1 - n];
    forall k | n <= k < |s|
      ensures s[k] == s[n..][k - n]
    {
    }
  }

  /** What every `(\.\w{2,3})+` string looks like. */
  lemma {:induction false} SuffixesFacts(t: string)
    requires Suffixes(t)
    ensures t[0] == '.' && Text.IsWordChar(t[|t| - 1])
    ensures forall k :: 0 <= k < |t| ==> Text.IsWordChar(t[k]) || t[k] == '.'
    ensures forall k :: 0 <= k < |t| - 1 && t[k] == '.' ==> Text.IsWordChar(t[k + 1])
    ensures exists j :: 0 <= j < |t| && t[j] == '.' && 2 <= |t| - j - 1 <= 3
                        && forall k :: j < k < |t| ==> Text.IsWordChar(t[k])
    decreases |t|
  {
    if |t| == 3 || (|t| == 4 && Text.IsWordChar(t[3])) {
      assert forall k :: 0 < k < |t| ==> Text.IsWordChar(t[k]);
      assert 2 <= |t| - 0 - 1 <= 3;
    } else {
      var n := if Suffixes(t[3..]) then 3 else 4;
      var u := t[n..];
      SuffixesFacts(u);
      assert t[|t| - 1] == u[|u| - 1];
      forall k | 0 <= k < |t|
        ensures Text.IsWordChar(t[k]) || t[k] == '.'
      {
        if n <= k { assert t[k] == u[k - n]; }
      }
      forall k | 0 <= k < |t| - 1 && t[k] == '.'
        ensures Text.IsWordChar(t[k + 1])
      {
        if n <= k { assert t[k] == u[k - n] && t[k + 1] == u[k + 1 - n]; }
      }
      var j :| 0 <= j < |u| && u[j] == '.' && 2 <= |u| - j - 1 <= 3 && forall k :: j < k < |u| ==> Text.IsWordChar(u[k]);
      assert t[j + n] == u[j];
      forall k | j + n < k < |t|
        ensures Text.IsWordChar(t[k])
      {
        assert t[k] == u[k - n];
      }
    }
  }

  /** A dotted name followed by a run of top level suffixes is a dotted
    * name. */
  lemma DottedThenSuffixes(a: string, t: string)
    requires Dotted(a) && |t| > 0 && t[0] == '.' && Text.IsWordChar(t[|t| - 1])
    requires forall k :: 0 <= k < |t| ==> Text.IsWordChar(t[k]) || t[k] == '.'
    requires forall k :: 0 <= k < |t| - 1 && t[k] == '.' ==> Text.IsWordChar(t[k + 1])
    ensures Dotted(a + t)
  {
    var s := a + t;
    forall k | 0 <= k < |s|
      ensures Text.IsWordChar(s[k]) || IsSep(s[k])
    {
      if k < |a| { assert s[k] == a[k]; } else { assert s[k] == t[k - |a|]; }
    }
    forall k | 0 <= k < |s| - 1 && IsSep(s[k])
      ensures Text.IsWordChar(s[k + 1])
    {
      if k < |a| - 1 {
        assert s[k] == a[k] && s[k + 1] == a[k + 1];
      } else if k == |a| - 1 {
        assert s[k] == a[|a| - 1];
      } else {
        assert s[k] == t[k - |a|] && s[k + 1] == t[k + 1 - |a|];
      }
    }
    assert s[0] == a[0] && s[|s| - 1] == t[|t| - 1];
  }

  lemma DomainSound(s: string, i: nat)
    requires 0 < i < |s| && Words(s[..i]) && Suffixes(s[i..])
    ensures DomainShape(s)
  {
    var a, t := s[..i], s[i..];
    assert s == a + t;
    SuffixesFacts(t);
    WordsDotted(a);
    DottedThenSuffixes(a, t);
    var j :| 0 <= j < |t| && t[j] == '.' && 2 <= |t| - j - 1 <= 3 && forall k :: j < k < |t| ==> Text.IsWordChar(t[k]);
    LastDotShifted(a, t, j);
  }

  /** The last dot of the suffixes, seen from the whole domain. */
  lemma LastDotShifted(a: string, t: string, j: nat)
    requires |a| > 0 && j < |t| && t[j] == '.' && 2 <= |t| - j - 1 <= 3
    requires forall k :: j < k < |t| ==> Text.IsWordChar(t[k])
    ensures var s := a + t;
      0 < |a| + j < |s| && s[|a| + j] == '.' && 2 <= |s| - (|a| + j) - 1 <= 3
      && forall k :: |a| + j < k < |s| ==> Text.IsWordChar(s[k])
  {
    var s := a + t;
    assert s[|a| + j] == t[j];
    forall k | |a| + j < k < |s|
      ensures Text.IsWordChar(s[k])
    {
      assert s[k] == t[k - |a|];
    }
  }

  lemma DomainComplete(s: string)
    requires DomainShape(s)
    ensures Domain(s)
  {
    var j :| 0 < j < |s| && s[j] == '.' && 2 <= |s| - j - 1 <= 3 && forall k :: j < k < |s| ==> Text.IsWordChar(s[k]);
    var a, t := s[..j], s[j..];
    assert Text.IsWordChar(s[j - 1]);
    assert Dotted(a) by {
      assert forall k :: 0 <= k < j ==> a[k] == s[k];
    }
    WordsDotted(a);
    assert forall k :: 0 <= k < |t| ==> t[k] == s[j + k];
    assert Suffixes(t);
    DomainFromSpec(s, 1);
  }

  lemma DomainIff(s: string)
    ensures Domain(s) <==> DomainShape(s)
  {
    DomainFromSpec(s, 1);
    if Domain(s) {
      var i :| 1 <= i < |s| && Words(s[..i]) && Suffixes(s[i..]);
      DomainSound(s, i);
    }
    if DomainShape(s) {
      DomainComplete(s);
    }
  }

  /** The pattern accepts exactly a dotted local part, one '@' and a dotted
    * domain ending in a dot and a two- or three-character top level name. */
  lemma EmailIff(s: string)
    ensures Email(s) <==> EmailShape(s)
  {
    EmailFromSpec(s, 1);
    forall i | 0 < i < |s|
      ensures (Words(s[..i]) <==> Dotted(s[..i])) && (Domain(s[i + 1..]) <==> DomainShape(s[i + 1..]))
    {
      WordsDotted(s[..i]);
      DomainIff(s[i + 1..]);
    }
  }

  /** A matching address holds exactly one '@'. */
  lemma EmailOneAt(s: string, i: nat)
    requires 0 < i < |s| && s[i] == '@' && Words(s[..i]) && Domain(s[i + 1..])
    ensures forall k :: 0 <= k < |s| && s[k] == '@' ==> k == i
  {
    WordsDotted(s[..i]);
    DomainIff(s[i + 1..]);
    assert forall k :: 0 <= k < i ==> s[k] == s[..i][k];
    assert forall k :: i < k < |s| ==> s[k] == s[i + 1..][k - i - 1];
  }

  // ---------------------------------------------------------------------
  // The address check of the e-mail handler `^[^\s@]+@[^\s@]+\.[^\s@]+$`

  /** `[^\s@]+`: a non-empty run with no whitespace and no '@'. */
  predicate Plain(t: string) {
    |t| > 0 && forall k :: 0 <= k < |t| ==> !Text.IsSpace(t[k]) && t[k] != '@'
  }

  /** `[^\s@]+\.[^\s@]+`: a plain run with a dot that is neither its first
    * nor its last character. */
  predicate PlainDomain(t: string) {
    Plain(t) && exists j :: 0 < j < |t| - 1 && t[j] == '.'
  }

  predicate BasicEmail(s: string) {
    exists i :: 0 < i < |s| && s[i] == '@' && Plain(s[..i]) && PlainDomain(s[i + 1..])
  }

  /** No word character, dot or dash is whitespace or an '@'. */
  lemma DottedPlain(t: string)
    requires Dotted(t)
    ensures Plain(t)
  {
    forall k | 0 <= k < |t|
      ensures !Text.IsSpace(t[k]) && t[k] != '@'
    {
      assert Text.IsWordChar(t[k]) || IsSep(t[k]);
    }
  }

  /** Every address the schema pattern accepts passes the handler's check,
    * so the handler's check never rejects an address the schema would keep. */
  lemma EmailIsBasic(s: string)
    requires Email(s)
    ensures BasicEmail(s)
  {
    EmailIff(s);
    var i :| 0 < i < |s| && s[i] == '@' && Dotted(s[..i]) && DomainShape(s[i + 1..]);
    var d := s[i + 1..];
    DottedPlain(s[..i]);
    DottedPlain(d);
    var j :| 0 < j < |d| && d[j] == '.' && 2 <= |d| - j - 1 <= 3 && forall k :: j < k < |d| ==> Text.IsWordChar(d[k]);
    assert 0 < j < |d| - 1;
  }

  /** The handler's check lets through addresses the schema refuses: a
    * one-character top level name, for one. */
  lemma BasicNotEmail()
    ensures BasicEmail("a@b.c") && !Email("a@b.c")
  {
    var s := "a@b.c";
    assert s[..1] == "a" && s[2..] == "b.c";
    assert PlainDomain("b.c") by {
      assert "b.c"[1] == '.';
    }
    EmailIff(s);
    assert !DomainShape(s[2..]);
  }

  // ---------------------------------------------------------------------
  // The phone pattern `^\+?[1-9]\d{1,14}$`

  /** An optional '+', a digit other than 0, then one to fourteen digits. */
  predicate Phone(s: string) {
    var d := if |s| > 0 && s[0] == '+' then s[1..] else s;
    2 <= |d| <= 15 && '1' <= d[0] <= '9' && Text.AllDigits(d)
  }
}
