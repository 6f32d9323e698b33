/**
 * Python string trimming as the chat client uses it: `rstrip("\n")` on received
 * lines and submissions, `strip()` on outbound messages and `rstrip()` on log lines,
 * plus the decimal rendering of a delay inside an f-string.
 */
module Text {

  /** The single character `rstrip("\n")` removes. */
  const Newline: set<char> := {'\n'}

  /** The characters Python's `str.isspace()` accepts: what `strip()` and `rstrip()` remove. */
  const Whitespace: set<char> :=
    {'\t', '\n', '\U{000B}', '\U{000C}', '\r', '\U{001C}', '\U{001D}', '\U{001E}', '\U{001F}', ' ',
     '\U{0085}', '\U{00A0}', '\U{1680}', '\U{2000}', '\U{2001}', '\U{2002}', '\U{2003}', '\U{2004}',
     '\U{2005}', '\U{2006}', '\U{2007}', '\U{2008}', '\U{2009}', '\U{200A}', '\U{2028}', '\U{2029}',
     '\U{202F}', '\U{205F}', '\U{3000}'}

  /** The length of the longest prefix of `s[..n]` that does not end in one of `chars`. */
  function KeptLength(s: string, chars: set<char>, n: nat): (k: nat)
    requires n <= |s|
    ensures k <= n
    ensures forall i :: k <= i < n ==> s[i] in chars
    ensures k == 0 || s[k - 1] !in chars
    decreases n
  {
    if n > 0 && s[n - 1] in chars then KeptLength(s, chars, n - 1) else n
  }

  /** `s.rstrip(chars)`: the longest prefix of `s` that does not end in one of `chars`. */
  function RStrip(s: string, chars: set<char>): (r: string)
    ensures |r| <= |s| && r == s[..|r|]
    ensures forall i :: |r| <= i < |s| ==> s[i] in chars
    ensures r == [] || r[|r| - 1] !in chars
  {
    s[..KeptLength(s, chars, |s|)]
  }

  /** `r` is a slice of `s` with only whitespace around it. */
  predicate Trimmed(s: string, r: string) {
    exists i, j :: 0 <= i <= j <= |s| && r == s[i..j] &&
      (forall k :: 0 <= k < i ==> s[k] in Whitespace) &&
      (forall k :: j <= k < |s| ==> s[k] in Whitespace)
  }

  /** `s` is whitespace only. */
  predicate Blank(s: string) {
    forall k :: 0 <= k < |s| ==> s[k] in Whitespace
  }

  /** `s.strip()`: whitespace removed from both ends; empty exactly when `s` is blank. */
  function Strip(s: string): (r: string)
    ensures r == [] || (r[0] !in Whitespace && r[|r| - 1] !in Whitespace)
    ensures r == [] <==> Blank(s)
    decreases |s|
  {
    if s == [] then s
    else if s[0] in Whitespace then
      BlankFront(s);
      Strip(s[1..])
    else if s[|s| - 1] in Whitespace then
      assert !Blank(s) && !Blank(s[..|s| - 1]) by {
        assert s[..|s| - 1][0] == s[0];
      }
      Strip(s[..|s| - 1])
    else s
  }

  lemma BlankFront(s: string)
    requires |s| > 0 && s[0] in Whitespace
    ensures Blank(s) <==> Blank(s[1..])
  {
    assert forall k :: 1 <= k < |s| ==> s[k] == s[1..][k - 1];
  }

  /** `strip()` removes nothing but the whitespace around the middle of the text: the
      result is a slice of it with only whitespace before and after. */
  lemma {:induction false} StripTrims(s: string)
    ensures Trimmed(s, Strip(s))
    decreases |s|
  {
    if s == [] {
      assert s == s[0..0];
    } else if s[0] in Whitespace {
      StripTrims(s[1..]);
      TrimmedFront(s, Strip(s[1..]));
    } else if s[|s| - 1] in Whitespace {
      StripTrims(s[..|s| - 1]);
      TrimmedBack(s, Strip(s[..|s| - 1]));
    } else {
      assert s == s[0..|s|];
    }
  }

  /** Whitespace in front of a trimmed text keeps it trimmed. */
  lemma TrimmedFront(s: string, r: string)
    requires |s| > 0 && s[0] in Whitespace && Trimmed(s[1..], r)
    ensures Trimmed(s, r)
  {
    var u := s[1..];
    var i, j :| 0 <= i <= j <= |u| && r == u[i..j] &&
                (forall k :: 0 <= k < i ==> u[k] in Whitespace) &&
                (forall k :: j <= k < |u| ==> u[k] in Whitespace);
    assert r == s[i + 1..j + 1];
    assert forall k :: 1 <= k < |s| ==> s[k] == u[k - 1];
  }

  /** Whitespace behind a trimmed text keeps it trimmed. */
  lemma TrimmedBack(s: string, r: string)
    requires |s| > 0 && s[|s| - 1] in Whitespace && Trimmed(s[..|s| - 1], r)
    ensures Trimmed(s, r)
  {
    var u := s[..|s| - 1];
    var i, j :| 0 <= i <= j <= |u| && r == u[i..j] &&
                (forall k :: 0 <= k < i ==> u[k] in Whitespace) &&
                (forall k :: j <= k < |u| ==> u[k] in Whitespace);
    assert r == s[i..j];
  }

  /** `rstrip` is characterised by its three properties: a prefix, followed only by
      characters of `chars`, and not itself ending in one. */
  lemma RStripUnique(s: string, chars: set<char>, k: nat)
    requires k <= |s|
    requires forall i :: k <= i < |s| ==> s[i] in chars
    requires k == 0 || s[k - 1] !in chars
    ensures RStrip(s, chars) == s[..k]
  {
  }

  /** Characters of `chars` appended to a string do not survive `rstrip(chars)`. */
  lemma RStripIgnoresTrail(s: string, t: string, chars: set<char>)
    requires forall i :: 0 <= i < |t| ==> t[i] in chars
    ensures RStrip(s + t, chars) == RStrip(s, chars)
  {
    var r := RStrip(s, chars);
    var u := s + t;
    forall i | |r| <= i < |u|
      ensures u[i] in chars
    {
      if i >= |s| {
        assert u[i] == t[i - |s|];
      }
    }
    assert |r| == 0 || u[|r| - 1] == r[|r| - 1];
    RStripUnique(u, chars, |r|);
    assert u[..|r|] == r;
  }

  /** A string that already ends in a kept character is its own `rstrip`. */
  lemma RStripFixed(s: string, chars: set<char>)
    requires s == [] || s[|s| - 1] !in chars
    ensures RStrip(s, chars) == s
  {
    RStripUnique(s, chars, |s|);
  }

  /** `rstrip` is idempotent. */
  lemma RStripIdempotent(s: string, chars: set<char>)
    ensures RStrip(RStrip(s, chars), chars) == RStrip(s, chars)
  {
    RStripFixed(RStrip(s, chars), chars);
  }

  /** A string with no whitespace at either end is its own `strip()`. */
  lemma StripFixed(s: string)
    requires s == [] || (s[0] !in Whitespace && s[|s| - 1] !in Whitespace)
    ensures Strip(s) == s
  {
  }

  /** `strip()` is idempotent. */
  lemma StripIdempotent(s: string)
    ensures Strip(Strip(s)) == Strip(s)
  {
    StripFixed(Strip(s));
  }

  /** Decimal digits of a natural number, as `str(n)` and `f"{n}"` write it. */
  function NatToString(n: nat): (r: string)
    ensures |r| >= 1
    ensures forall i :: 0 <= i < |r| ==> '0' <= r[i] <= '9'
    ensures n >= 10 ==> r[0] != '0'
    decreases n
  {
    if n < 10 then [Digit(n)] else NatToString(n / 10) + [Digit(n % 10)]
  }

  function Digit(d: nat): (c: char)
    requires d < 10
    ensures '0' <= c <= '9'
  {
    ['0', '1', '2', '3', '4', '5', '6', '7', '8', '9'][d]
  }

  /** Reads back a string of decimal digits. */
  function DigitsValue(s: string): nat
    requires forall i :: 0 <= i < |s| ==> '0' <= s[i] <= '9'
  {
    if s == [] then 0 else 10 * DigitsValue(s[..|s| - 1]) + (s[|s| - 1] as int - '0' as int)
  }

  /** The rendering of a delay can be read back: `int(str(n)) == n`. */
  lemma {:induction false} NatToStringRoundTrip(n: nat)
    ensures DigitsValue(NatToString(n)) == n
    decreases n
  {
    var r := NatToString(n);
    if n >= 10 {
      NatToStringRoundTrip(n / 10);
      assert r[..|r| - 1] == NatToString(n / 10);
    }
  }
}
