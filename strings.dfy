/** The few JavaScript string operations the extension relies on:
    `String.prototype.includes`, `String.prototype.trim` and the decimal
    rendering of a number inside a template literal. */
module Strings {

  /** `sub` occurs in `s` starting at position `i`. */
  predicate OccursAt(s: string, sub: string, i: int)
  {
    0 <= i && i + |sub| <= |s| && s[i..i + |sub|] == sub
  }

  /** `s.includes(sub)`, written as a left-to-right scan. */
  predicate Includes(s: string, sub: string)
    decreases |s|
  {
    if |sub| <= |s| && s[..|sub|] == sub then true
    else if s == [] then false
    else Includes(s[1..], sub)
  }

  /** The scan answers yes exactly when `sub` occurs somewhere in `s`. */
  lemma {:induction false} IncludesIff(s: string, sub: string)
    ensures Includes(s, sub) <==> exists i :: OccursAt(s, sub, i)
    decreases |s|
  {
    if |sub| <= |s| && s[..|sub|] == sub {
      assert OccursAt(s, sub, 0);
    } else if s != [] {
      IncludesIff(s[1..], sub);
      if exists i :: OccursAt(s[1..], sub, i) {
        var i :| OccursAt(s[1..], sub, i);
        assert s[i + 1..i + 1 + |sub|] == s[1..][i..i + |sub|];
        assert OccursAt(s, sub, i + 1);
      }
      if exists i :: OccursAt(s, sub, i) {
        var i :| OccursAt(s, sub, i) && i > 0;
        assert s[1..][i - 1..i - 1 + |sub|] == s[i..i + |sub|];
        assert OccursAt(s[1..], sub, i - 1);
      }
    }
  }

  /** The characters `String.prototype.trim` removes: ECMAScript's
      WhiteSpace (tab, vertical tab, form feed, space, no-break space,
      byte order mark and the Unicode space separators) and
      LineTerminator (line feed, carriage return, line and paragraph
      separators). */
  predicate IsJsWhitespace(c: char)
  {
    c == '\t' || c == '\n' || c == '\U{B}' || c == '\U{C}' || c == '\r' || c == ' '
    || c == '\U{A0}' || c == '\U{1680}' || ('\U{2000}' <= c <= '\U{200A}')
    || c == '\U{2028}' || c == '\U{2029}' || c == '\U{202F}' || c == '\U{205F}'
    || c == '\U{3000}' || c == '\U{FEFF}'
  }

  predicate AllWhitespace(s: string)
  {
    forall k :: 0 <= k < |s| ==> IsJsWhitespace(s[k])
  }

  /** Neither end of `s` is whitespace. */
  predicate IsTrimmed(s: string)
  {
    s == [] || (!IsJsWhitespace(s[0]) && !IsJsWhitespace(s[|s| - 1]))
  }

  /** The number of whitespace characters at the start of `s`
      (`LeadingWhitespaceSpec`). */
  function LeadingWhitespace(s: string): (i: nat)
    ensures i <= |s|
    decreases |s|
  {
    if s == [] || !IsJsWhitespace(s[0]) then 0
    else 1 + LeadingWhitespace(s[1..])
  }

  /** `LeadingWhitespace` counts a run of whitespace that ends at the
      end of `s` or at a character that is not whitespace. */
  lemma {:induction false} LeadingWhitespaceSpec(s: string)
    ensures AllWhitespace(s[..LeadingWhitespace(s)])
    ensures LeadingWhitespace(s) < |s| ==> !IsJsWhitespace(s[LeadingWhitespace(s)])
    decreases |s|
  {
    if s != [] && IsJsWhitespace(s[0]) {
      LeadingWhitespaceSpec(s[1..]);
      var rest := LeadingWhitespace(s[1..]);
      assert s[..1 + rest] == [s[0]] + s[1..][..rest];
    }
  }

  /** The position after the last non-whitespace character of `s`
      (`ContentEndSpec`). */
  function ContentEnd(s: string): (j: nat)
    ensures j <= |s|
    decreases |s|
  {
    if s == [] || !IsJsWhitespace(s[|s| - 1]) then |s|
    else ContentEnd(s[..|s| - 1])
  }

  /** After `ContentEnd` only whitespace follows, and the character
      before it is not whitespace. */
  lemma {:induction false} ContentEndSpec(s: string)
    ensures AllWhitespace(s[ContentEnd(s)..])
    ensures ContentEnd(s) > 0 ==> !IsJsWhitespace(s[ContentEnd(s) - 1])
    decreases |s|
  {
    if s != [] && IsJsWhitespace(s[|s| - 1]) {
      ContentEndSpec(s[..|s| - 1]);
      var end := ContentEnd(s[..|s| - 1]);
      assert s[end..] == s[..|s| - 1][end..] + [s[|s| - 1]];
    }
  }

  /** `s.trim()`: `s` without its leading and trailing whitespace
      (`TrimSpec`). */
  function Trim(s: string): (r: string)
    ensures |r| <= |s|
  {
    var i, j := LeadingWhitespace(s), ContentEnd(s);
    if i < j then s[i..j] else ""
  }

  /** `Trim` leaves no whitespace at either end, keeps a contiguous part
      of `s` and removes only whitespace before and after it. */
  lemma TrimSpec(s: string)
    ensures IsTrimmed(Trim(s))
    ensures exists i :: 0 <= i <= |s| - |Trim(s)| && s[i..i + |Trim(s)|] == Trim(s)
                        && AllWhitespace(s[..i]) && AllWhitespace(s[i + |Trim(s)|..])
  {
    var i, j := LeadingWhitespace(s), ContentEnd(s);
    LeadingWhitespaceSpec(s);
    ContentEndSpec(s);
    if i < j {
      var r := Trim(s);
      assert r[0] == s[i] && r[|r| - 1] == s[j - 1];
      assert s[i..i + |r|] == r && s[i + |r|..] == s[j..];
    } else {
      assert AllWhitespace(s[..j]) by {
        forall k | 0 <= k < j ensures IsJsWhitespace(s[..j][k]) {
          assert s[..j][k] == s[..i][k];
        }
      }
      assert s[j..j] == Trim(s);
    }
  }

  /** Trimming a string that is already trimmed changes nothing, so the
      result of `Trim` is a fixed point of it. */
  lemma TrimOfTrimmed(s: string)
    requires IsTrimmed(s)
    ensures Trim(s) == s
  {
    if s != [] {
      assert LeadingWhitespace(s) == 0;
      assert ContentEnd(s) == |s|;
      assert s[0..|s|] == s;
    }
  }

  function DigitChar(d: nat): char
    requires d < 10
  {
    "0123456789"[d]
  }

  /** The digit character's code is its value above '0'. */
  lemma DigitCharValue(d: nat)
    requires d < 10
    ensures DigitChar(d) as int - '0' as int == d
  {
    assert "0123456789"[d] as int == '0' as int + d;
  }

  predicate IsDigit(c: char)
  {
    '0' <= c <= '9'
  }

  /** The decimal rendering `${n}` of a non-negative integer. */
  function NatToString(n: nat): (r: string)
    ensures |r| >= 1
    ensures forall k :: 0 <= k < |r| ==> IsDigit(r[k])
    ensures |r| > 1 ==> r[0] != '0'
    decreases n
  {
    if n < 10 then [DigitChar(n)]
    else NatToString(n / 10) + [DigitChar(n % 10)]
  }

  /** The number a string of decimal digits denotes. */
  function DecimalValue(s: string): nat
    requires forall k :: 0 <= k < |s| ==> IsDigit(s[k])
    decreases |s|
  {
    if s == [] then 0
    else
      assert IsDigit(s[|s| - 1]);
      DecimalValue(s[..|s| - 1]) * 10 + (s[|s| - 1] as int - '0' as int)
  }

  /** Reading the rendering back gives the number: the rendering loses
      nothing, so distinct statuses give distinct messages. */
  lemma {:induction false} DecimalRoundTrip(n: nat)
    ensures DecimalValue(NatToString(n)) == n
    decreases n
  {
    var r := NatToString(n);
    DigitCharValue(n % 10);
    if n >= 10 {
      assert r[..|r| - 1] == NatToString(n / 10);
      assert r[|r| - 1] == DigitChar(n % 10);
      DecimalRoundTrip(n / 10);
      assert n == (n / 10) * 10 + n % 10;
    } else {
      assert r[..0] == [];
    }
  }
}
