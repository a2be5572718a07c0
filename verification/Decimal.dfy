/** Decimal printing and parsing as printf("%d"), atoi and sscanf("%d") do it, on numbers that fit. */
module Decimal {
  predicate IsDigit(c: char) {
    '0' <= c <= '9'
  }

  function Digit(d: nat): (c: char)
    requires d < 10
    ensures IsDigit(c)
  {
    '0' + d as char
  }

  function Value(c: char): nat
    requires IsDigit(c)
  {
    (c - '0') as nat
  }

  function PrintNat(n: nat): (s: string)
    ensures s != [] && forall i :: 0 <= i < |s| ==> IsDigit(s[i])
  {
    if n < 10 then [Digit(n)] else PrintNat(n / 10) + [Digit(n % 10)]
  }

  function Print(n: int): string {
    if n < 0 then "-" + PrintNat(-n) else PrintNat(n)
  }

  /** The leading digits, read on top of what has been read so far. */
  function ReadDigits(s: string, sofar: nat): nat {
    if s == [] || !IsDigit(s[0]) then sofar else ReadDigits(s[1..], 10 * sofar + Value(s[0]))
  }

  predicate IsSpace(c: char) {
    c in {' ', '\t', '\n', '\r', 11 as char, 12 as char}
  }

  function SkipSpaces(s: string): string {
    if s != [] && IsSpace(s[0]) then SkipSpaces(s[1..]) else s
  }

  /** White space, an optional sign, digits; whatever follows is ignored, and no digits at all make 0. */
  function Atoi(s: string): int {
    var t := SkipSpaces(s);
    if t != [] && t[0] == '-' then -(ReadDigits(t[1..], 0) as int)
    else if t != [] && t[0] == '+' then ReadDigits(t[1..], 0)
    else ReadDigits(t, 0)
  }

  lemma {:induction false} ReadAppend(s: string, c: char, sofar: nat)
    requires IsDigit(c) && forall i :: 0 <= i < |s| ==> IsDigit(s[i])
    ensures ReadDigits(s + [c], sofar) == 10 * ReadDigits(s, sofar) + Value(c)
    decreases |s|
  {
    if s == [] {
      assert ReadDigits([c][1..], 10 * sofar + Value(c)) == 10 * sofar + Value(c);
    } else {
      assert (s + [c])[1..] == s[1..] + [c];
      ReadAppend(s[1..], c, 10 * sofar + Value(s[0]));
    }
  }

  lemma {:induction false} ReadPrint(n: nat)
    ensures ReadDigits(PrintNat(n), 0) == n
  {
    if n < 10 {
      assert ReadDigits([Digit(n)][1..], Value(Digit(n))) == n;
    } else {
      ReadPrint(n / 10);
      ReadAppend(PrintNat(n / 10), Digit(n % 10), 0);
    }
  }

  /** Parsing gives back what was printed. */
  lemma AtoiPrint(n: int)
    ensures Atoi(Print(n)) == n
  {
    if n < 0 {
      assert Print(n)[1..] == PrintNat(-n);
      ReadPrint(-n);
    } else {
      ReadPrint(n);
    }
  }

  /** Printing puts the last digit last, and a minus sign in front. */
  lemma PrintInFigures(n: nat, d: nat)
    requires d < 10
    ensures PrintNat(d) == ["0123456789"[d]]
    ensures n > 0 ==> PrintNat(10 * n + d) == PrintNat(n) + ["0123456789"[d]]
    ensures n > 0 ==> Print(-(n as int)) == "-" + PrintNat(n)
    ensures Print(n) == PrintNat(n)
  {
    assert "0123456789"[d] == Digit(d) by {
      forall k: nat | k < 10 ensures "0123456789"[k] == '0' + k as char {
      }
    }
  }

  /** Parsing skips white space and one sign, and stops at the first character that is no digit. */
  lemma AtoiInFigures(space: string, n: nat, tail: string)
    requires forall i :: 0 <= i < |space| ==> space[i] == ' ' || space[i] == '\t' || space[i] == '\n'
    requires tail == "" || !('0' <= tail[0] <= '9')
    ensures Atoi(space + PrintNat(n) + tail) == n && Atoi(space + "+" + PrintNat(n) + tail) == n
    ensures Atoi(space + "-" + PrintNat(n) + tail) == -(n as int)
  {
    var digits := PrintNat(n) + tail;
    assert digits[0] == PrintNat(n)[0];
    ReadUpTo(PrintNat(n), tail, 0);
    ReadPrint(n);
    Skipped(space, digits);
    Skipped(space, "+" + digits);
    Skipped(space, "-" + digits);
    assert space + PrintNat(n) + tail == space + digits;
    assert space + "+" + PrintNat(n) + tail == space + ("+" + digits) && ("+" + digits)[1..] == digits;
    assert space + "-" + PrintNat(n) + tail == space + ("-" + digits) && ("-" + digits)[1..] == digits;
    hide ReadDigits, SkipSpaces, PrintNat;
  }

  lemma {:induction false} Skipped(space: string, s: string)
    requires forall i :: 0 <= i < |space| ==> space[i] == ' ' || space[i] == '\t' || space[i] == '\n'
    requires s != "" && !IsSpace(s[0])
    ensures SkipSpaces(space + s) == s
  {
    if space == "" {
      assert space + s == s;
    } else {
      assert (space + s)[1..] == space[1..] + s;
      Skipped(space[1..], s);
    }
  }

  lemma {:induction false} ReadUpTo(s: string, tail: string, sofar: nat)
    requires forall i :: 0 <= i < |s| ==> IsDigit(s[i])
    requires tail == "" || !IsDigit(tail[0])
    ensures ReadDigits(s + tail, sofar) == ReadDigits(s, sofar)
    decreases |s|
  {
    if s == "" {
      assert s + tail == tail;
    } else {
      assert (s + tail)[1..] == s[1..] + tail;
      ReadUpTo(s[1..], tail, 10 * sofar + Value(s[0]));
    }
  }
}
