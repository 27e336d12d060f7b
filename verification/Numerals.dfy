/** Printing numbers into a buffer and parsing them back. */
module Numerals {
  const NUL: char := 0 as char
  const WORD: int := 0x1_0000_0000_0000_0000        // unsigned 64-bit values
  const INT64_LIMIT: int := 0x8000_0000_0000_0000   // signed 64-bit values stay below
  const INT_LIMIT: int := 0x8000_0000               // signed 32-bit values stay below

  // ---------------------------------------------------------------- numerals

  function DigitChar(d: nat): (c: char)
    requires d < 36
    ensures c != NUL && c != '-'
  {
    if d < 10 then (d + 48) as char else (d + 55) as char
  }

  lemma {:induction false} Multiples(q: nat, base: nat)
    requires base >= 2
    ensures base * q >= 2 * q
  {
    if q > 0 {
      Multiples(q - 1, base);
      assert base * q == base * (q - 1) + base;
    }
  }

  lemma DivisionShrinks(v: nat, base: nat)
    requires base >= 2
    ensures 0 <= v / base <= v && (v > 0 ==> v / base < v) && 0 <= v % base < base
  {
    var q: int, r: int := v / base, v % base;
    assert v == base * q + r;
    if q < 0 {
      assert false;
    } else {
      Multiples(q, base);
    }
  }

  /** The digits of v, most significant first. */
  function Numeral(v: nat, base: nat): (s: string)
    requires 2 <= base <= 36
    ensures s != [] && NUL !in s && '-' !in s
  {
    DivisionShrinks(v, base);
    (if v / base == 0 then [] else Numeral(v / base, base)) + [DigitChar(v % base)]
  }

  /** The digits of v in the order the division produces them. */
  function LowFirst(v: nat, base: nat): (s: string)
    requires 2 <= base <= 36
    ensures s != []
  {
    DivisionShrinks(v, base);
    [DigitChar(v % base)] + (if v / base == 0 then [] else LowFirst(v / base, base))
  }

  lemma LowFirstStep(v: nat, base: nat)
    requires 2 <= base <= 36
    ensures 0 <= v % base < base && 0 <= v / base
    ensures LowFirst(v, base)[0] == DigitChar(v % base)
    ensures LowFirst(v, base)[1..] == if v / base == 0 then [] else LowFirst(v / base, base)
  {
    DivisionShrinks(v, base);
  }

  function Reversed(s: string): string { if s == [] then [] else Reversed(s[1..]) + [s[0]] }

  lemma {:induction false} ReversedAt(s: string, k: nat)
    requires k < |s|
    ensures |Reversed(s)| == |s| && Reversed(s)[k] == s[|s| - 1 - k]
  {
    if |s| > 1 {
      ReversedAt(s[1..], if k < |s| - 1 then k else 0);
    }
  }

  lemma {:induction false} ReversedDigits(v: nat, base: nat)
    requires 2 <= base <= 36
    ensures Reversed(LowFirst(v, base)) == Numeral(v, base)
  {
    DivisionShrinks(v, base);
    if v / base != 0 {
      ReversedDigits(v / base, base);
      assert LowFirst(v, base)[1..] == LowFirst(v / base, base);
    }
  }

  // ---------------------------------------------------------------- the value of a string

  predicate IsDigit(c: char) { '0' <= c <= '9' }

  predicate AllDigits(s: string) { forall i :: 0 <= i < |s| ==> IsDigit(s[i]) }

  function ValueOf(s: string): int {
    if s == [] then 0 else 10 * ValueOf(s[..|s| - 1]) + (s[|s| - 1] as int - 48)
  }

  lemma {:induction false} NumeralValue(v: nat)
    ensures AllDigits(Numeral(v, 10)) && ValueOf(Numeral(v, 10)) == v
  {
    var s := Numeral(v, 10);
    if v / 10 != 0 {
      NumeralValue(v / 10);
      assert s[..|s| - 1] == Numeral(v / 10, 10);
    }
  }

  lemma {:induction false} LeadingDigit(s: string)
    requires AllDigits(s) && s != [] && s[0] != '0'
    ensures ValueOf(s) > 0
  {
    if |s| > 1 {
      LeadingDigit(s[..|s| - 1]);
    }
  }

  /** The numeral of v is the only string of decimal digits with value v that does not start with
      a superfluous zero. */
  lemma {:induction false} NumeralUnique(v: nat, s: string)
    requires s != [] && AllDigits(s) && (s[0] == '0' ==> |s| == 1)
    ensures ValueOf(s) == v <==> s == Numeral(v, 10)
  {
    NumeralValue(v);
    if ValueOf(s) == v {
      var t := s[..|s| - 1];
      assert s == t + [s[|s| - 1]];
      assert v % 10 == s[|s| - 1] as int - 48 && v / 10 == ValueOf(t);
      if t != [] {
        LeadingDigit(t);
        NumeralUnique(v / 10, t);
      }
    }
  }

  /** A C string held in an array: the characters before the first zero. */
  function CString(s: string): (r: string)
    ensures |r| <= |s| && r == s[..|r|] && NUL !in r && (|r| < |s| ==> s[|r|] == NUL)
  {
    if s == [] || s[0] == NUL then [] else [s[0]] + CString(s[1..])
  }

  lemma {:induction false} CStringIs(b: seq<char>, s: string)
    requires |s| < |b| && b[|s|] == NUL && NUL !in s && forall k :: 0 <= k < |s| ==> b[k] == s[k]
    ensures CString(b) == s
  {
    if s != [] {
      assert b[0] == s[0] != NUL;
      CStringIs(b[1..], s[1..]);
    }
  }

  // ---------------------------------------------------------------- printing

  ghost predicate Outside(k: int, from: int, to: int) { k < from || to <= k }

  ghost predicate Stored(b: seq<char>, at: nat, s: string) {
    at + |s| <= |b| && forall k :: 0 <= k < |s| ==> b[at + k] == s[k]
  }

  /** What is still to be written once `more` says whether v is. */
  ghost predicate Pending(rest: string, v: nat, base: nat, more: bool)
    requires 2 <= base <= 36
  {
    rest == if more then LowFirst(v, base) else []
  }

  /** Store the lowest digit of v; the quotient is what is left to write, unless it is zero. */
  method PutDigit(v: nat, buffer: array<char>, p: nat, base: nat, ghost rest: string) returns (q: nat)
    requires 2 <= base <= 36 && p < buffer.Length && Pending(rest, v, base, true)
    modifies buffer
    ensures rest != [] && buffer[p] == rest[0] && Pending(rest[1..], q, base, q != 0)
    ensures forall k :: 0 <= k < buffer.Length && k != p ==> buffer[k] == old(buffer[k])
  {
    LowFirstStep(v, base);
    var remainder := v % base;
    buffer[p] := DigitChar(remainder);
    q := v / base;
  }

  /** Write the digits of value in the base from `at` on, lowest first. */
  method WriteLowFirst(value: nat, buffer: array<char>, at: nat, base: nat, ghost digits: string) returns (p: nat)
    requires 2 <= base <= 36 && at + |digits| < buffer.Length && Pending(digits, value, base, true)
    modifies buffer
    ensures p == at + |digits| && forall k :: 0 <= k < |digits| ==> buffer[at + k] == digits[k]
    ensures forall k :: 0 <= k < buffer.Length && Outside(k, at, p) ==> buffer[k] == old(buffer[k])
  {
    ghost var rest := digits;
    p := at;
    var v: nat, more := value, true;
    while more
      invariant at <= p && p - at + |rest| == |digits| && rest == digits[p - at..]
      invariant Pending(rest, v, base, more) && (!more ==> rest == [])
      invariant forall k :: 0 <= k < p - at ==> buffer[at + k] == digits[k]
      invariant forall k :: 0 <= k < buffer.Length && Outside(k, at, p) ==> buffer[k] == old(buffer[k])
      decreases |rest|
    {
      assert rest != [];
      v := PutDigit(v, buffer, p, base, rest);
      p := p + 1;
      rest := rest[1..];
      more := v != 0;
    }
  }

  /** Reverse what lies between two positions, from both ends. */
  method ReverseBetween(buffer: array<char>, from: nat, to: nat)
    requires from <= to <= buffer.Length
    modifies buffer
    ensures forall k :: from <= k < to ==> buffer[k] == old(buffer[from + to - 1 - k])
    ensures forall k :: 0 <= k < buffer.Length && Outside(k, from, to) ==> buffer[k] == old(buffer[k])
  {
    var p1, p2: int := from, to - 1;
    while p1 < p2
      invariant from <= p1 <= p2 + 2 && p1 + p2 == from + to - 1
      invariant forall k :: from <= k < p1 ==> buffer[k] == old(buffer[from + to - 1 - k])
      invariant forall k :: p2 < k < to ==> buffer[k] == old(buffer[from + to - 1 - k])
      invariant forall k :: p1 <= k <= p2 ==> buffer[k] == old(buffer[k])
      invariant forall k :: 0 <= k < buffer.Length && Outside(k, from, to) ==> buffer[k] == old(buffer[k])
    {
      buffer[p1], buffer[p2] := buffer[p2], buffer[p1];
      p1 := p1 + 1;
      p2 := p2 - 1;
    }
  }

  method ReverseStored(buffer: array<char>, at: nat, to: nat, ghost low: string)
    requires at + |low| == to <= buffer.Length && Stored(buffer[..], at, low)
    modifies buffer
    ensures Stored(buffer[..], at, Reversed(low)) && |Reversed(low)| == |low|
    ensures forall k :: 0 <= k < buffer.Length && Outside(k, at, to) ==> buffer[k] == old(buffer[k])
  {
    ghost var written := buffer[..];
    ReverseBetween(buffer, at, to);
    if low != [] {
      ReversedAt(low, 0);
    }
    forall k | 0 <= k < |low| ensures buffer[at + k] == Reversed(low)[k] {
      ReversedAt(low, k);
      assert buffer[at + k] == written[at + (|low| - 1 - k)];
    }
  }

  /** The digits of value, most significant first, and a terminator. */
  method UintToBase(value: nat, buffer: array<char>, at: nat, base: nat) returns (digits: nat)
    requires value < WORD && 2 <= base <= 36 && at + |Numeral(value, base)| < buffer.Length
    modifies buffer
    ensures digits == |Numeral(value, base)|
    ensures Stored(buffer[..], at, Numeral(value, base)) && buffer[at + digits] == NUL
    ensures forall k :: 0 <= k < buffer.Length && Outside(k, at, at + digits + 1) ==> buffer[k] == old(buffer[k])
  {
    ghost var low := LowFirst(value, base);
    ReversedDigits(value, base);
    ReversedAt(low, 0);
    var p := WriteLowFirst(value, buffer, at, base, low);
    digits := p - at;
    buffer[p] := NUL;
    ReverseStored(buffer, at, p, low);
  }

  /** A sign for negative numbers, then the digits. */
  function SignedNumeral(n: int): string {
    if n < 0 then ['-'] + Numeral(-n, 10) else Numeral(n, 10)
  }

  method SignedIntToStr(n: int, buffer: array<char>)
    requires -INT_LIMIT < n < INT_LIMIT && |SignedNumeral(n)| < buffer.Length
    modifies buffer
    ensures CString(buffer[..]) == SignedNumeral(n)
  {
    ghost var s := SignedNumeral(n);
    if n < 0 {
      buffer[0] := '-';
      var _ := UintToBase(-n, buffer, 1, 10);
      forall k | 0 <= k < |s| ensures buffer[k] == s[k] {
        assert k > 0 ==> buffer[..][1 + (k - 1)] == Numeral(-n, 10)[k - 1];
      }
    } else {
      var _ := UintToBase(n, buffer, 0, 10);
      assert forall k :: 0 <= k < |s| ==> buffer[..][0 + k] == s[k];
    }
    CStringIs(buffer[..], s);
  }

  /** The unsigned printer takes a negative int for the 64-bit number it converts to. */
  function AsUnsigned(n: int): (v: nat)
    requires -INT_LIMIT <= n < INT_LIMIT
    ensures v < WORD
  {
    n % WORD
  }

  method IntToStr(n: int, buffer: array<char>)
    requires -INT_LIMIT <= n < INT_LIMIT && |Numeral(AsUnsigned(n), 10)| < buffer.Length
    modifies buffer
    ensures CString(buffer[..]) == Numeral(AsUnsigned(n), 10)
  {
    ghost var s := Numeral(AsUnsigned(n), 10);
    var _ := UintToBase(AsUnsigned(n), buffer, 0, 10);
    assert forall k :: 0 <= k < |s| ==> buffer[..][0 + k] == s[k];
    CStringIs(buffer[..], s);
  }

  // ---------------------------------------------------------------- parsing

  function Unsigned(s: string): string { if s != [] && s[0] == '-' then s[1..] else s }

  /** What the parser answers: 0 for anything but an optional minus sign and digits. */
  function Parsed(s: string): int {
    var t := Unsigned(s);
    if !AllDigits(t) then 0 else if t != s then -ValueOf(t) else ValueOf(t)
  }

  /** The arithmetic of the parser stays in 64 bits: it adds each character before it takes '0' off. */
  ghost predicate Fits(s: string) {
    forall i {:trigger s[..i]} :: 0 < i <= |s| && AllDigits(s[..i]) ==> ValueOf(s[..i]) + 48 < INT64_LIMIT
  }

  lemma ValueStep(t: string, i: nat)
    requires i < |t|
    ensures ValueOf(t[..i + 1]) == 10 * ValueOf(t[..i]) + (t[i] as int - 48)
    ensures AllDigits(t[..i + 1]) <==> AllDigits(t[..i]) && IsDigit(t[i])
  {
    assert t[..i + 1][..i] == t[..i];
    assert t[..i + 1] == t[..i] + [t[i]];
  }

  lemma NotDigits(t: string, i: nat)
    requires i < |t| && !IsDigit(t[i])
    ensures !AllDigits(t)
  {
  }

  /** The digits t, stored in str from `from` on up to the terminator; 0 at the first other character. */
  method ParseDigits(str: array<char>, from: nat, ghost t: string) returns (res: int)
    requires from + |t| < str.Length && str[from + |t|] == NUL
    requires forall k :: 0 <= k < |t| ==> str[from + k] == t[k] != NUL
    requires Fits(t)
    ensures res == if AllDigits(t) then ValueOf(t) else 0
  {
    res := 0;
    var i := from;
    while str[i] != NUL
      invariant from <= i <= from + |t|
      invariant i < from + |t| ==> str[from + (i - from)] == t[i - from] != NUL
      invariant AllDigits(t[..i - from]) && res == ValueOf(t[..i - from])
      decreases from + |t| - i
    {
      ghost var n := i - from;
      ValueStep(t, n);
      if str[i] < '0' || str[i] > '9' {
        NotDigits(t, n);
        return 0;
      }
      var sum := res * 10 + str[i] as int;
      assert sum < INT64_LIMIT;
      res := sum - 48;
      i := i + 1;
    }
    assert t[..i - from] == t;
  }

  method Satoi(str: array?<char>) returns (r: int)
    requires str != null ==> NUL in str[..] && Fits(Unsigned(CString(str[..])))
    ensures r == if str == null then 0 else Parsed(CString(str[..]))
  {
    if str == null {
      return 0;
    }
    ghost var s := CString(str[..]);
    CStringStored(str[..]);
    if str[0] == '-' {
      var res := ParseDigits(str, 1, s[1..]);
      r := res * -1;
    } else {
      r := ParseDigits(str, 0, s);
    }
  }

  lemma CStringStored(b: seq<char>)
    requires NUL in b
    ensures |CString(b)| < |b| && b[|CString(b)|] == NUL && (b[0] != NUL ==> CString(b) != [])
    ensures forall k :: 0 <= k < |CString(b)| ==> b[k] == CString(b)[k] != NUL
  {
    Terminated(b);
    var s := CString(b);
    forall k | 0 <= k < |s| ensures b[k] == s[k] != NUL {
      assert b[..|s|][k] == s[k];
      assert s[k] in s;
    }
  }

  lemma {:induction false} Terminated(s: string)
    requires NUL in s
    ensures |CString(s)| < |s|
  {
    if s[0] != NUL {
      Terminated(s[1..]);
    }
  }

  // ---------------------------------------------------------------- round trips

  lemma {:induction false} PrefixSmaller(s: string, i: nat)
    requires AllDigits(s) && i <= |s|
    ensures AllDigits(s[..i]) && 0 <= ValueOf(s[..i]) <= ValueOf(s)
  {
    if s == [] {
    } else if i < |s| {
      PrefixSmaller(s[..|s| - 1], i);
      assert s[..|s| - 1][..i] == s[..i];
    } else {
      PrefixSmaller(s[..|s| - 1], 0);
      assert s[..i] == s;
    }
  }

  lemma DigitsFit(s: string)
    requires AllDigits(s) && s != []
    ensures Fits(s) <==> ValueOf(s) + 48 < INT64_LIMIT
  {
    assert s[..|s|] == s;
    forall i | 0 < i <= |s| ensures ValueOf(s) + 48 < INT64_LIMIT ==> AllDigits(s[..i]) && ValueOf(s[..i]) + 48 < INT64_LIMIT {
      PrefixSmaller(s, i);
    }
  }

  /** Parsing the printed decimal form of an unsigned value gives the value back whenever the
      parser's arithmetic stays in range, and it does exactly for v + 48 < 2^63. */
  lemma UnsignedRoundTrip(v: nat)
    ensures Unsigned(Numeral(v, 10)) == Numeral(v, 10) && Parsed(Numeral(v, 10)) == v
    ensures Fits(Numeral(v, 10)) <==> v + 48 < INT64_LIMIT
  {
    NumeralValue(v);
    DigitsFit(Numeral(v, 10));
    assert Numeral(v, 10)[0] in Numeral(v, 10);
  }

  /** Printing with a sign and parsing is the identity on every int above the least. */
  lemma SignedRoundTrip(n: int)
    requires -INT_LIMIT < n < INT_LIMIT
    ensures Fits(Unsigned(SignedNumeral(n))) && Parsed(SignedNumeral(n)) == n
  {
    if n < 0 {
      NumeralValue(-n);
      DigitsFit(Numeral(-n, 10));
      assert Unsigned(SignedNumeral(n)) == Numeral(-n, 10);
    } else {
      UnsignedRoundTrip(n);
    }
  }

  /** Without the sign the parser can read the result back exactly for non-negative numbers. */
  lemma IntRoundTripExactly(n: int)
    requires -INT_LIMIT <= n < INT_LIMIT
    ensures Fits(Numeral(AsUnsigned(n), 10)) <==> n >= 0
    ensures n >= 0 ==> Parsed(Numeral(AsUnsigned(n), 10)) == n
  {
    UnsignedRoundTrip(AsUnsigned(n));
  }
}
