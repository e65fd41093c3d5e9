/**
  The percent-escape scanner: folding the two hex digits of every escape to lower case.
 */
module PercentEscapes {
  import opened Text

  predicate IsHex(c: char) {
    IsDigit(c) || 'a' <= c <= 'f' || 'A' <= c <= 'F'
  }

  /** Does an escape start at the head of `s`? */
  predicate EscapeFirst(s: string) {
    |s| >= 3 && s[0] == '%' && IsHex(s[1]) && IsHex(s[2])
  }

  function LowerEscapes(s: string): string {
    if s == "" then ""
    else if EscapeFirst(s) then ['%', ToLower(s[1]), ToLower(s[2])] + LowerEscapes(s[3..])
    else [s[0]] + LowerEscapes(s[1..])
  }

  predicate EscapeAt(s: string, i: nat) {
    i + 2 < |s| && s[i] == '%' && IsHex(s[i + 1]) && IsHex(s[i + 2])
  }

  /** What one turn of the scan appends. */
  function Folded(s: string, i: nat): string
    requires i < |s|
  {
    if EscapeAt(s, i) then ['%', ToLower(s[i + 1]), ToLower(s[i + 2])] else [s[i]]
  }

  lemma {:induction false} FoldStep(s: string, i: nat)
    requires i < |s|
    ensures LowerEscapes(s[i..]) == Folded(s, i) + LowerEscapes(s[i + |Folded(s, i)|..])
  {
    assert EscapeFirst(s[i..]) <==> EscapeAt(s, i);
    if EscapeAt(s, i) {
      assert s[i..][3..] == s[i + 3..];
    } else {
      assert s[i..][1..] == s[i + 1..];
    }
  }

  /** The scan has folded `s[..i]` and is between two escapes at `i`. */
  predicate ScannedTo(s: string, folded: string, i: nat) {
    && |folded| == |s| && i <= |s|
    && LowerEscapes(s[i..]) == folded[i..]
  }

  lemma {:induction false} ScanOn(s: string, folded: string, i: nat)
    requires i < |s| && ScannedTo(s, folded, i)
    ensures var n := i + |Folded(s, i)|;
            ScannedTo(s, folded, n) && folded[..n] == folded[..i] + Folded(s, i)
  {
    FoldStep(s, i);
    var n := i + |Folded(s, i)|;
    assert folded[i..] == Folded(s, i) + folded[i..][n - i..];
    assert folded[i..][n - i..] == folded[n..];
    assert folded[..n] == folded[..i] + folded[i..][..n - i];
  }

  /** The index-driven loop of the source, which leaves a string without '%' alone. */
  method LowercasePercentEscapes(s: string) returns (r: string)
    ensures r == LowerEscapes(s)
  {
    if '%' !in s {
      NothingToFold(s);
      return s;
    }
    ghost var folded := LowerEscapes(s);
    FoldLength(s);
    assert s[0..] == s && folded[0..] == folded;
    var out, i, n := "", 0, |s|;
    while i < n
      invariant 0 <= i <= n
      invariant ScannedTo(s, folded, i) && out == folded[..i]
    {
      ScanOn(s, folded, i);
      var ch := s[i];
      if ch == '%' && i + 2 < n && IsHex(s[i + 1]) && IsHex(s[i + 2]) {
        out := out + ['%', ToLower(s[i + 1]), ToLower(s[i + 2])];
        i := i + 3;
      } else {
        out := out + [ch];
        i := i + 1;
      }
    }
    r := out;
  }

  lemma {:induction false} NothingToFold(s: string)
    requires '%' !in s
    ensures LowerEscapes(s) == s
  {
    if s != "" {
      NothingToFold(s[1..]);
    }
  }

  // ----- meaning ----------------------------------------------------------------------------

  function HexValue(c: char): nat
    requires IsHex(c)
  {
    if IsDigit(c) then c as int - '0' as int
    else if 'a' <= c <= 'f' then c as int - 'a' as int + 10
    else c as int - 'A' as int + 10
  }

  /** The octets a string stands for (section 2.1 of RFC 3986): an escape is its octet, any
      other character itself. */
  function Decode(s: string): seq<nat> {
    if s == "" then []
    else if EscapeFirst(s) then [16 * HexValue(s[1]) + HexValue(s[2])] + Decode(s[3..])
    else [s[0] as nat] + Decode(s[1..])
  }

  /** Is position `k` one of the two digits of an escape, as the scan finds them? */
  predicate InEscape(s: string, k: nat)
    requires k < |s|
    decreases |s|
  {
    if EscapeFirst(s) then (if k < 3 then k != 0 else InEscape(s[3..], k - 3))
    else k != 0 && InEscape(s[1..], k - 1)
  }

  lemma {:induction false} FoldLength(s: string)
    ensures |LowerEscapes(s)| == |s|
  {
    if s == "" {
    } else if EscapeFirst(s) {
      FoldLength(s[3..]);
    } else {
      FoldLength(s[1..]);
    }
  }

  /** Exactly the digits of escapes are folded; every other character is untouched. */
  lemma {:induction false} FoldTouchesOnlyEscapeDigits(s: string, k: nat)
    requires k < |s|
    ensures |LowerEscapes(s)| == |s|
    ensures LowerEscapes(s)[k] == if InEscape(s, k) then ToLower(s[k]) else s[k]
    decreases |s|
  {
    FoldLength(s);
    if EscapeFirst(s) {
      if k >= 3 {
        FoldTouchesOnlyEscapeDigits(s[3..], k - 3);
      }
    } else if k > 0 {
      FoldTouchesOnlyEscapeDigits(s[1..], k - 1);
    }
  }

  lemma {:induction false} FoldedHex(c: char)
    requires IsHex(c)
    ensures IsHex(ToLower(c)) && HexValue(ToLower(c)) == HexValue(c) && ToLower(ToLower(c)) == ToLower(c)
  {
  }

  /** A folded string starts with an escape exactly when the original does. */
  lemma {:induction false} FoldKeepsHead(s: string)
    requires s != ""
    ensures |LowerEscapes(s)| == |s| && LowerEscapes(s)[0] == s[0]
    ensures EscapeFirst(LowerEscapes(s)) <==> EscapeFirst(s)
    ensures EscapeFirst(s) ==> LowerEscapes(s)[3..] == LowerEscapes(s[3..])
    ensures !EscapeFirst(s) ==> LowerEscapes(s)[1..] == LowerEscapes(s[1..])
  {
    FoldLength(s);
    if EscapeFirst(s) {
      FoldedHex(s[1]);
      FoldedHex(s[2]);
    } else if |s| >= 3 {
      // a hex digit is not a '%', so after one the scan reads the next character as it is
      FoldTouchesOnlyEscapeDigits(s, 1);
      FoldTouchesOnlyEscapeDigits(s, 2);
    }
  }

  /** Folding twice is folding once. */
  lemma {:induction false} FoldIdempotent(s: string)
    ensures LowerEscapes(LowerEscapes(s)) == LowerEscapes(s)
  {
    if s != "" {
      FoldKeepsHead(s);
      if EscapeFirst(s) {
        FoldedHex(s[1]);
        FoldedHex(s[2]);
        FoldIdempotent(s[3..]);
      } else {
        FoldIdempotent(s[1..]);
      }
    }
  }

  /** Folding never changes what a string stands for. */
  lemma {:induction false} FoldPreservesMeaning(s: string)
    ensures Decode(LowerEscapes(s)) == Decode(s)
  {
    if s != "" {
      FoldKeepsHead(s);
      if EscapeFirst(s) {
        FoldedHex(s[1]);
        FoldedHex(s[2]);
        FoldPreservesMeaning(s[3..]);
      } else {
        FoldPreservesMeaning(s[1..]);
      }
    }
  }

  /** Folding introduces no character a caller forbids, as long as that set is closed under
      upper case; a separator in particular. */
  lemma {:induction false} FoldFree(s: string, stops: set<char>)
    requires Free(s, stops) && forall c | c in stops :: CaseFree(c)
    ensures Free(LowerEscapes(s), stops)
  {
    FoldLength(s);
    forall k | 0 <= k < |s|
      ensures LowerEscapes(s)[k] !in stops
    {
      FoldTouchesOnlyEscapeDigits(s, k);
    }
  }

  // ----- escapes by their digits ------------------------------------------------------------

  const UPPER := "0123456789ABCDEF"
  const LOWER := "0123456789abcdef"

  lemma {:induction false} DigitsByValue(c: char, i: nat)
    requires i < 16 && (c == UPPER[i] || c == LOWER[i])
    ensures IsHex(c) && HexValue(c) == i && ToLower(c) == LOWER[i]
  {
    assert forall k: nat | k < 10 :: UPPER[k] == LOWER[k] == ('0' as int + k) as char;
    assert forall k: nat | 10 <= k < 16 ::
      UPPER[k] == ('A' as int + k - 10) as char && LOWER[k] == ('a' as int + k - 10) as char;
  }

  lemma {:induction false} HexAsWritten(c: char)
    ensures IsHex(c) <==> c in UPPER || c in LOWER
  {
    if c in UPPER {
      var i :| 0 <= i < 16 && UPPER[i] == c;
      DigitsByValue(c, i);
    }
    if c in LOWER {
      var i :| 0 <= i < 16 && LOWER[i] == c;
      DigitsByValue(c, i);
    }
    if IsHex(c) {
      var i := HexValue(c);
      assert c == ('0' as int + i) as char || c == ('A' as int + i - 10) as char || c == ('a' as int + i - 10) as char;
      assert c == UPPER[i] || c == LOWER[i];
    }
  }

  /** An escape, its digits in either case, is folded to lower case and stands for the octet of its
      digits; a '%' that begins none, and any other character, stays and stands for itself. */
  lemma {:induction false} EscapesAsWritten(a: char, b: char, i: nat, j: nat, rest: string)
    requires i < 16 && (a == UPPER[i] || a == LOWER[i]) && j < 16 && (b == UPPER[j] || b == LOWER[j])
    ensures LowerEscapes(['%', a, b] + rest) == ['%', LOWER[i], LOWER[j]] + LowerEscapes(rest)
    ensures Decode(['%', a, b] + rest) == [16 * i + j] + Decode(rest)
  {
    DigitsByValue(a, i);
    DigitsByValue(b, j);
    assert (['%', a, b] + rest)[3..] == rest;
  }

  lemma {:induction false} OthersAsWritten(c: char, rest: string)
    requires c != '%' || |rest| < 2 || (rest[0] !in UPPER && rest[0] !in LOWER)
             || (rest[1] !in UPPER && rest[1] !in LOWER)
    ensures LowerEscapes([c] + rest) == [c] + LowerEscapes(rest)
    ensures Decode([c] + rest) == [c as nat] + Decode(rest)
  {
    if |rest| >= 2 {
      HexAsWritten(rest[0]);
      HexAsWritten(rest[1]);
    }
    assert ([c] + rest)[1..] == rest;
  }
}
