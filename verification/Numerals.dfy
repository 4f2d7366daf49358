// Fixed-width fields of digits, as timestamps and UUIDs are written.
module Numerals {
  import opened Wrappers

  datatype Base = Decimal | Hexadecimal

  // A field of width digits, followed by a fixed text.
  datatype Field = Field(width: nat, after: string)

  function Size(base: Base): nat {
    if base.Decimal? then 10 else 16
  }

  // n with width zero digits appended.
  function Shift(base: Base, n: nat, width: nat): nat {
    if width == 0 then n
    else if base.Decimal? then 10 * Shift(base, n, width - 1)
    else 16 * Shift(base, n, width - 1)
  }

  function Quotient(base: Base, n: nat): nat {
    if base.Decimal? then n / 10 else n / 16
  }

  function LastDigit(base: Base, n: nat): nat {
    if base.Decimal? then n % 10 else n % 16
  }

  function DigitChar(d: nat): char
    requires d < 16
  {
    "0123456789abcdef"[d]
  }

  // The value of a digit, hexadecimal ones in either case.
  function DigitValue(c: char): nat {
    if '0' <= c <= '9' then c as int - '0' as int
    else if 'a' <= c <= 'f' then c as int - 'a' as int + 10
    else if 'A' <= c <= 'F' then c as int - 'A' as int + 10
    else 16
  }

  function Digits(base: Base, n: nat, width: nat): string {
    if width == 0 then "" else Digits(base, Quotient(base, n), width - 1) + [DigitChar(LastDigit(base, n))]
  }

  predicate AreDigits(base: Base, s: string) {
    forall i | 0 <= i < |s| :: DigitValue(s[i]) < Size(base)
  }

  function Number(base: Base, s: string): nat {
    if s == [] then 0 else Shift(base, Number(base, s[..|s| - 1]), 1) + DigitValue(s[|s| - 1])
  }

  function Write(base: Base, layout: seq<Field>, values: seq<nat>): string
    requires |values| == |layout|
  {
    if layout == [] then ""
    else Digits(base, values[0], layout[0].width) + layout[0].after + Write(base, layout[1..], values[1..])
  }

  // The values of the fields at the front of s, and what follows them.
  function Read(base: Base, layout: seq<Field>, s: string): Option<(seq<nat>, string)>
    decreases |layout|
  {
    if layout == [] then Some(([], s))
    else
      var w, after := layout[0].width, layout[0].after;
      if |s| >= w && AreDigits(base, s[..w]) && after <= s[w..] then
        match Read(base, layout[1..], s[w + |after|..])
        case None => None
        case Some(r) => Some(([Number(base, s[..w])] + r.0, r.1))
      else None
  }

  predicate Fits(base: Base, layout: seq<Field>, values: seq<nat>) {
    |values| == |layout| && forall i | 0 <= i < |values| :: values[i] < Shift(base, 1, layout[i].width)
  }

  lemma AppendDigit(base: Base, s: string, d: nat)
    requires d < Size(base) && AreDigits(base, s)
    ensures AreDigits(base, s + [DigitChar(d)])
    ensures Number(base, s + [DigitChar(d)]) == Shift(base, Number(base, s), 1) + d
  {
    var t := s + [DigitChar(d)];
    assert t[..|t| - 1] == s;
    assert DigitValue(DigitChar(d)) == d;
  }

  lemma {:induction false} DigitsRoundTrip(base: Base, n: nat, width: nat)
    requires n < Shift(base, 1, width)
    ensures |Digits(base, n, width)| == width
    ensures AreDigits(base, Digits(base, n, width)) && Number(base, Digits(base, n, width)) == n
  {
    if width > 0 {
      DigitsRoundTrip(base, Quotient(base, n), width - 1);
      AppendDigit(base, Digits(base, Quotient(base, n), width - 1), LastDigit(base, n));
    }
  }

  lemma Cuts(digits: string, after: string, more: string, rest: string)
    ensures var s, w := digits + after + more + rest, |digits|;
            s[..w] == digits && after <= s[w..] && s[w + |after|..] == more + rest
  {
  }

  lemma ReadField(base: Base, layout: seq<Field>, digits: string, tail: string, values: seq<nat>, rest: string)
    requires layout != [] && |digits| == layout[0].width && AreDigits(base, digits)
    requires Read(base, layout[1..], tail) == Some((values, rest))
    ensures Read(base, layout, digits + layout[0].after + tail) == Some(([Number(base, digits)] + values, rest))
  {
    Cuts(digits, layout[0].after, tail, "");
    assert tail + "" == tail && digits + layout[0].after + tail + "" == digits + layout[0].after + tail;
  }

  // Digits are the usual ones, letters in lower case.
  lemma DigitsAreUsual(d: nat)
    requires d < 16
    ensures DigitChar(d) as int == if d < 10 then '0' as int + d else 'a' as int + d - 10
  {
  }

  // Reading is the inverse of writing, whatever follows.
  lemma {:induction false} ReadWrite(base: Base, layout: seq<Field>, values: seq<nat>, rest: string)
    requires Fits(base, layout, values)
    ensures Read(base, layout, Write(base, layout, values) + rest) == Some((values, rest))
    decreases |layout|
  {
    if layout == [] {
      assert Write(base, layout, values) + rest == rest;
    } else {
      var digits, more := Digits(base, values[0], layout[0].width), Write(base, layout[1..], values[1..]);
      DigitsRoundTrip(base, values[0], layout[0].width);
      ReadWrite(base, layout[1..], values[1..], rest);
      ReadField(base, layout, digits, more + rest, values[1..], rest);
      Regroup(digits + layout[0].after, more, rest);
      FirstAndRest(values);
    }
  }

  lemma Regroup(a: string, b: string, c: string)
    ensures a + b + c == a + (b + c)
  {
  }

  lemma FirstAndRest(values: seq<nat>)
    requires values != []
    ensures [values[0]] + values[1..] == values
  {
  }

  lemma ReadWhole(base: Base, layout: seq<Field>, values: seq<nat>)
    requires Fits(base, layout, values)
    ensures Read(base, layout, Write(base, layout, values)) == Some((values, ""))
  {
    ReadWrite(base, layout, values, "");
    assert Write(base, layout, values) + "" == Write(base, layout, values);
  }

  // All digits read as one number: it orders values field by field.
  function Rank(base: Base, layout: seq<Field>, values: seq<nat>): nat
    requires |values| == |layout|
    decreases |layout|
  {
    if layout == [] then 0
    else
      var n := |layout| - 1;
      Shift(base, Rank(base, layout[..n], values[..n]), layout[n].width) + values[n]
  }

  lemma {:induction false} ShiftApart(base: Base, a: nat, b: nat, width: nat)
    requires a < b
    ensures Shift(base, a, width) + Shift(base, 1, width) <= Shift(base, b, width)
  {
    if width > 0 {
      ShiftApart(base, a, b, width - 1);
    }
  }

  // The rank orders values by the first field in which they differ.
  lemma {:induction false} RankIsMonotone(base: Base, layout: seq<Field>, v: seq<nat>, w: seq<nat>, k: nat)
    requires Fits(base, layout, v) && Fits(base, layout, w) && k < |layout|
    requires v[..k] == w[..k] && v[k] < w[k]
    ensures Rank(base, layout, v) < Rank(base, layout, w)
    decreases |layout|
  {
    var n := |layout| - 1;
    if k == n {
    } else {
      assert v[..n][..k] == v[..k] && w[..n][..k] == w[..k];
      RankIsMonotone(base, layout[..n], v[..n], w[..n], k);
      ShiftApart(base, Rank(base, layout[..n], v[..n]), Rank(base, layout[..n], w[..n]), layout[n].width);
    }
  }

  lemma SameDigits(base: Base, a: nat, x: nat, b: nat, y: nat, width: nat)
    requires x < Shift(base, 1, width) && y < Shift(base, 1, width)
    requires Shift(base, a, width) + x == Shift(base, b, width) + y
    ensures a == b && x == y
  {
    if a < b {
      ShiftApart(base, a, b, width);
    } else if b < a {
      ShiftApart(base, b, a, width);
    }
  }

  lemma {:induction false} RankIsInjective(base: Base, layout: seq<Field>, v: seq<nat>, w: seq<nat>)
    requires Fits(base, layout, v) && Fits(base, layout, w)
    requires Rank(base, layout, v) == Rank(base, layout, w)
    ensures v == w
    decreases |layout|
  {
    if layout != [] {
      var n := |layout| - 1;
      SameDigits(base, Rank(base, layout[..n], v[..n]), v[n], Rank(base, layout[..n], w[..n]), w[n], layout[n].width);
      RankIsInjective(base, layout[..n], v[..n], w[..n]);
      assert v == v[..n] + [v[n]] && w == w[..n] + [w[n]];
    }
  }
}
