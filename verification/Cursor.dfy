// Page cursors: internal/pagination/pagination.go.
module Pagination {
  import opened Wrappers
  import opened Numerals
  import Base64

  // A time in UTC, with nanoseconds.
  datatype Time = Time(year: nat, month: nat, day: nat, hour: nat, minute: nat, second: nat, nano: nat)

  // What time.Parse and uuid.Parse make of texts that are not in the canonical
  // forms below, such as a time with an offset or a UUID in braces.
  datatype Library = Library(parseTime: string -> Option<Time>, parseUuid: string -> Option<seq<nat>>)

  const CLOCK := [Field(4, "-"), Field(2, "-"), Field(2, "T"), Field(2, ":"), Field(2, ":"), Field(2, "")]
  const UUID := [Field(8, "-"), Field(4, "-"), Field(4, "-"), Field(4, "-"), Field(12, "")]

  predicate IsLeap(year: nat) {
    year % 4 == 0 && (year % 100 != 0 || year % 400 == 0)
  }

  function DaysIn(month: nat, year: nat): nat {
    if month == 2 then (if IsLeap(year) then 29 else 28)
    else if month in {4, 6, 9, 11} then 30
    else 31
  }

  predicate IsTime(t: Time) {
    && t.year <= 9999 && 1 <= t.month <= 12 && 1 <= t.day <= DaysIn(t.month, t.year)
    && t.hour < 24 && t.minute < 60 && t.second < 60 && t.nano < 1_000_000_000
  }

  // Down to the microsecond, as PostgreSQL stores it.
  function Truncate(t: Time): Time {
    t.(nano := t.nano / 1000 * 1000)
  }

  // ---- RFC 3339 with nanoseconds ----

  function ClockOf(t: Time): seq<nat> {
    [t.year, t.month, t.day, t.hour, t.minute, t.second]
  }

  function WithoutTrailingZeros(s: string): string {
    if s != "" && s[|s| - 1] == '0' then WithoutTrailingZeros(s[..|s| - 1]) else s
  }

  function Zeros(n: nat): string {
    seq(n, _ => '0')
  }

  function FormatFraction(nano: nat): string {
    if nano == 0 then "" else "." + WithoutTrailingZeros(Digits(Decimal, nano, 9))
  }

  function FormatTime(t: Time): string {
    Write(Decimal, CLOCK, ClockOf(t)) + (FormatFraction(t.nano) + "Z")
  }

  // Up to nine digits count; fewer stand for tenths, hundredths and so on.
  function ParseFraction(s: string): Option<nat> {
    if s == "" then Some(0)
    else if |s| >= 2 && s[0] == '.' && AreDigits(Decimal, s[1..]) then
      var digits := s[1..];
      Some(Number(Decimal, if |digits| >= 9 then digits[..9] else digits + Zeros(9 - |digits|)))
    else None
  }

  // Times in UTC in the form that FormatTime writes.
  function ParseUtc(s: string): Option<Time> {
    match Read(Decimal, CLOCK, s)
    case None => None
    case Some(r) =>
      if |r.0| != 6 || r.1 == "" || r.1[|r.1| - 1] != 'Z' then None
      else
        match ParseFraction(r.1[..|r.1| - 1])
        case None => None
        case Some(nano) =>
          var t := Time(r.0[0], r.0[1], r.0[2], r.0[3], r.0[4], r.0[5], nano);
          if IsTime(t) then Some(t) else None
  }

  function ParseTime(lib: Library, s: string): Option<Time> {
    var t := ParseUtc(s);
    if t.Some? then t else lib.parseTime(s)
  }

  // ---- UUIDs ----

  function FormatUuid(id: seq<nat>): string
    requires |id| == |UUID|
  {
    Write(Hexadecimal, UUID, id)
  }

  function ParseUuid(lib: Library, s: string): Option<seq<nat>> {
    match Read(Hexadecimal, UUID, s)
    case Some((id, "")) => Some(id)
    case _ => lib.parseUuid(s)
  }

  // ---- Cursors ----

  function Encode(t: Time, id: string): string {
    Base64.Encode(FormatTime(Truncate(t)) + "|" + id)
  }

  // The texts before and after the first occurrence of c.
  function SplitFirst(s: string, c: char): Option<(string, string)> {
    if s == "" then None
    else if s[0] == c then Some(("", s[1..]))
    else match SplitFirst(s[1..], c)
         case None => None
         case Some(parts) => Some(([s[0]] + parts.0, parts.1))
  }

  function Decode(lib: Library, cursor: string): Result<(Time, string), string> {
    match Base64.Decode(cursor)
    case None => Failure("invalid cursor encoding")
    case Some(raw) =>
      match SplitFirst(raw, '|')
      case None => Failure("invalid cursor format")
      case Some((time, id)) =>
        var t := ParseTime(lib, time);
        if t.None? then Failure("invalid cursor timestamp")
        else if ParseUuid(lib, id).None? then Failure("invalid cursor id")
        else Success((t.value, id))
  }

  // ---- Round trips ----

  lemma {:induction false} ZerosBack(s: string)
    ensures |WithoutTrailingZeros(s)| <= |s| && s == WithoutTrailingZeros(s) + Zeros(|s| - |WithoutTrailingZeros(s)|)
  {
    if s != "" && s[|s| - 1] == '0' {
      ZerosBack(s[..|s| - 1]);
      assert s == s[..|s| - 1] + ['0'];
    }
  }

  lemma {:induction false} ZerosAreZero(n: nat)
    ensures Number(Decimal, Zeros(n)) == 0
  {
    if n > 0 {
      assert Zeros(n)[..n - 1] == Zeros(n - 1);
      ZerosAreZero(n - 1);
    }
  }

  lemma NanosecondsFit(nano: nat)
    requires nano < 1_000_000_000
    ensures nano < Shift(Decimal, 1, 9)
  {
    assert Shift(Decimal, 1, 3) == 1_000;
    assert Shift(Decimal, 1, 6) == 1_000_000;
  }

  lemma SomeDigitStays(nano: nat)
    requires 0 < nano < 1_000_000_000
    ensures WithoutTrailingZeros(Digits(Decimal, nano, 9)) != ""
  {
    NanosecondsFit(nano);
    DigitsRoundTrip(Decimal, nano, 9);
    ZerosBack(Digits(Decimal, nano, 9));
    ZerosAreZero(9);
    assert "" + Zeros(9) == Zeros(9);
  }

  lemma FractionRoundTrip(nano: nat)
    requires nano < 1_000_000_000
    ensures ParseFraction(FormatFraction(nano)) == Some(nano)
  {
    if nano != 0 {
      var digits := Digits(Decimal, nano, 9);
      var short := WithoutTrailingZeros(digits);
      NanosecondsFit(nano);
      DigitsRoundTrip(Decimal, nano, 9);
      ZerosBack(digits);
      SomeDigitStays(nano);
      assert FormatFraction(nano)[1..] == short;
      assert AreDigits(Decimal, short) by {
        assert forall i | 0 <= i < |short| :: short[i] == digits[i];
      }
      assert |short| == 9 ==> short[..9] == digits;
    }
  }

  // ---- No separator and no byte above 127 in a formatted time ----

  ghost predicate Plain(s: string) {
    forall i | 0 <= i < |s| :: s[i] as int < 128 && s[i] != '|'
  }

  lemma {:induction false} DigitsArePlain(base: Base, n: nat, width: nat)
    ensures Plain(Digits(base, n, width)) && |Digits(base, n, width)| == width
  {
    if width > 0 {
      DigitsArePlain(base, Quotient(base, n), width - 1);
    }
  }

  lemma {:induction false} WritesPlain(base: Base, layout: seq<Field>, values: seq<nat>)
    requires |values| == |layout| && forall i | 0 <= i < |layout| :: Plain(layout[i].after)
    ensures Plain(Write(base, layout, values))
  {
    if layout != [] {
      DigitsArePlain(base, values[0], layout[0].width);
      WritesPlain(base, layout[1..], values[1..]);
    }
  }

  lemma TimeIsPlain(t: Time)
    ensures Plain(FormatTime(t))
  {
    WritesPlain(Decimal, CLOCK, ClockOf(t));
    var digits := Digits(Decimal, t.nano, 9);
    DigitsArePlain(Decimal, t.nano, 9);
    ZerosBack(digits);
    assert Plain(WithoutTrailingZeros(digits)) by {
      assert forall i | 0 <= i < |WithoutTrailingZeros(digits)| :: WithoutTrailingZeros(digits)[i] == digits[i];
    }
  }

  lemma {:induction false} SplitAtSeparator(before: string, after: string)
    requires forall i | 0 <= i < |before| :: before[i] != '|'
    ensures SplitFirst(before + "|" + after, '|') == Some((before, after))
  {
    var s := before + "|" + after;
    if before == "" {
      assert s[1..] == after;
    } else {
      SplitAtSeparator(before[1..], after);
      assert s[1..] == before[1..] + "|" + after;
      assert before == [before[0]] + before[1..];
    }
  }

  lemma TimeRoundTrip(t: Time)
    requires IsTime(t)
    ensures ParseUtc(FormatTime(t)) == Some(t)
  {
    var rest := FormatFraction(t.nano) + "Z";
    assert Shift(Decimal, 1, 4) == 10000 && Shift(Decimal, 1, 2) == 100;
    ReadWrite(Decimal, CLOCK, ClockOf(t), rest);
    FractionRoundTrip(t.nano);
    assert rest[..|rest| - 1] == FormatFraction(t.nano);
  }

  // The database compares and stores microseconds, so a cursor names its row
  // exactly; and decoding it fails for no other reason than its id.
  lemma CursorRoundTrip(lib: Library, t: Time, id: string)
    requires IsTime(t) && Base64.ByteText(id)
    ensures Decode(lib, Encode(t, id))
            == if ParseUuid(lib, id).Some? then Success((Truncate(t), id)) else Failure("invalid cursor id")
  {
    var time := FormatTime(Truncate(t));
    TimeIsPlain(Truncate(t));
    Base64.RoundTrip(time + "|" + id);
    SplitAtSeparator(time, id);
    TimeRoundTrip(Truncate(t));
  }

  lemma UuidRoundTrip(lib: Library, id: seq<nat>)
    requires Fits(Hexadecimal, UUID, id)
    ensures ParseUuid(lib, FormatUuid(id)) == Some(id) && Base64.ByteText(FormatUuid(id))
  {
    ReadWhole(Hexadecimal, UUID, id);
    UuidIsByteText(id);
  }

  lemma UuidIsByteText(id: seq<nat>)
    requires |id| == |UUID|
    ensures Base64.ByteText(FormatUuid(id))
  {
    WritesPlain(Hexadecimal, UUID, id);
  }

  // Cursors are safe in a URL whatever the id.
  lemma CursorIsUrlSafe(t: Time, id: string)
    requires Base64.ByteText(id)
    ensures Base64.UrlSafe(Encode(t, id))
  {
    TimeIsPlain(Truncate(t));
    Base64.RoundTrip(FormatTime(Truncate(t)) + "|" + id);
  }

  // ---- The texts themselves ----

  lemma MonthLengths(month: nat, year: nat)
    requires 1 <= month <= 12
    ensures month in {1, 3, 5, 7, 8, 10, 12} ==> DaysIn(month, year) == 31
    ensures month in {4, 6, 9, 11} ==> DaysIn(month, year) == 30
    ensures month == 2 ==>
              DaysIn(month, year) == if year % 400 == 0 || (year % 4 == 0 && year % 100 != 0) then 29 else 28
  {
  }

  // Truncation goes down to the microsecond and touches nothing above it.
  lemma TruncateMeans(t: Time)
    ensures var u := Truncate(t);
            && u.nano % 1000 == 0 && u.nano <= t.nano < u.nano + 1000
            && u == t.(nano := u.nano)
  {
  }

  // year-month-dayThour:minute:second, the fraction, and Z.
  lemma TimeText(t: Time)
    ensures FormatTime(t)
            == Digits(Decimal, t.year, 4) + "-" + Digits(Decimal, t.month, 2) + "-" + Digits(Decimal, t.day, 2) + "T"
               + Digits(Decimal, t.hour, 2) + ":" + Digits(Decimal, t.minute, 2) + ":" + Digits(Decimal, t.second, 2)
               + FormatFraction(t.nano) + "Z"
  {
    var v := ClockOf(t);
    var p := Digits(Decimal, t.year, 4) + "-" + Digits(Decimal, t.month, 2) + "-" + Digits(Decimal, t.day, 2) + "T";
    assert CLOCK[0..] == CLOCK && v[0..] == v;
    WriteThree(Decimal, CLOCK, v, 0);
    WriteThree(Decimal, CLOCK, v, 3);
    assert Write(Decimal, CLOCK[6..], v[6..]) == "";
    var q := Digits(Decimal, t.hour, 2) + ":" + Digits(Decimal, t.minute, 2) + ":" + Digits(Decimal, t.second, 2);
    assert Write(Decimal, CLOCK, v) == p + q;
    Append(p, Digits(Decimal, t.hour, 2), ":", Digits(Decimal, t.minute, 2), ":", Digits(Decimal, t.second, 2));
    Regroup(p + q, FormatFraction(t.nano), "Z");
  }

  lemma Append(p: string, a: string, b: string, c: string, d: string, e: string)
    ensures p + (a + b + c + d + e) == p + a + b + c + d + e
  {
  }

  lemma WriteThree(base: Base, layout: seq<Field>, values: seq<nat>, k: nat)
    requires |values| == |layout| && k + 3 <= |layout|
    ensures Write(base, layout[k..], values[k..])
            == Digits(base, values[k], layout[k].width) + layout[k].after
               + Digits(base, values[k + 1], layout[k + 1].width) + layout[k + 1].after
               + Digits(base, values[k + 2], layout[k + 2].width) + layout[k + 2].after
               + Write(base, layout[k + 3..], values[k + 3..])
  {
    WriteFirst(base, layout, values, k);
    WriteFirst(base, layout, values, k + 1);
    WriteFirst(base, layout, values, k + 2);
    Flatten(Digits(base, values[k], layout[k].width) + layout[k].after,
            Digits(base, values[k + 1], layout[k + 1].width), layout[k + 1].after,
            Digits(base, values[k + 2], layout[k + 2].width), layout[k + 2].after,
            Write(base, layout[k + 3..], values[k + 3..]));
  }

  lemma Flatten(p: string, a: string, b: string, c: string, d: string, w: string)
    ensures p + (a + b + (c + d + w)) == p + a + b + c + d + w
  {
  }

  lemma WriteFirst(base: Base, layout: seq<Field>, values: seq<nat>, k: nat)
    requires |values| == |layout| && k < |layout|
    ensures Write(base, layout[k..], values[k..])
            == Digits(base, values[k], layout[k].width) + layout[k].after + Write(base, layout[k + 1..],
                values[k + 1..])
  {
    assert layout[k..][1..] == layout[k + 1..] && values[k..][1..] == values[k + 1..];
  }

  // Groups of 8, 4, 4, 4 and 12 lower-case hexadecimal digits.
  lemma UuidText(id: seq<nat>)
    requires |id| == |UUID|
    ensures FormatUuid(id)
            == Digits(Hexadecimal, id[0], 8) + "-" + Digits(Hexadecimal, id[1], 4) + "-" + Digits(Hexadecimal, id[2],
                4) + "-"
               + Digits(Hexadecimal, id[3], 4) + "-" + Digits(Hexadecimal, id[4], 12)
  {
    var last := Digits(Hexadecimal, id[4], 12);
    assert UUID[0..] == UUID && id[0..] == id;
    WriteThree(Hexadecimal, UUID, id, 0);
    WriteFirst(Hexadecimal, UUID, id, 3);
    WriteFirst(Hexadecimal, UUID, id, 4);
    assert Write(Hexadecimal, UUID[5..], id[5..]) == "";
    assert Write(Hexadecimal, UUID[4..], id[4..]) == last;
    var p := Digits(Hexadecimal, id[0], 8) + "-" + Digits(Hexadecimal, id[1], 4) + "-" + Digits(Hexadecimal, id[2],
        4) + "-";
    Regroup(p, Digits(Hexadecimal, id[3], 4) + "-", last);
    Regroup(p, Digits(Hexadecimal, id[3], 4), "-");
  }

  // No fraction for whole seconds; otherwise a point and digits that do not end in 0.
  lemma FractionText(nano: nat)
    requires nano < 1_000_000_000
    ensures nano == 0 ==> FormatFraction(nano) == ""
    ensures nano > 0 ==>
              var s := FormatFraction(nano);
              2 <= |s| <= 10 && s[0] == '.' && s[|s| - 1] != '0'
  {
    if nano > 0 {
      var digits := Digits(Decimal, nano, 9);
      NanosecondsFit(nano);
      DigitsRoundTrip(Decimal, nano, 9);
      ZerosBack(digits);
      LastIsNotZero(digits);
      SomeDigitStays(nano);
    }
  }

  lemma {:induction false} LastIsNotZero(s: string)
    ensures var short := WithoutTrailingZeros(s); short == "" || short[|short| - 1] != '0'
  {
    if s != "" && s[|s| - 1] == '0' {
      LastIsNotZero(s[..|s| - 1]);
    }
  }

  // What each malformed cursor is rejected for, and what a well-formed one means.
  lemma DecodeMeans(lib: Library, time: string, id: string)
    requires Base64.ByteText(time) && Base64.ByteText(id) && forall i | 0 <= i < |time| :: time[i] != '|'
    ensures Decode(lib, Base64.Encode(time)) == Failure("invalid cursor format")
    ensures Decode(lib, Base64.Encode(time + "|" + id))
            == if ParseTime(lib, time).None? then Failure("invalid cursor timestamp")
               else if ParseUuid(lib, id).None? then Failure("invalid cursor id")
               else Success((ParseTime(lib, time).value, id))
  {
    Base64.RoundTrip(time);
    NoSeparator(time);
    Base64.RoundTrip(time + "|" + id);
    SplitAtSeparator(time, id);
  }

  lemma {:induction false} NoSeparator(s: string)
    requires forall i | 0 <= i < |s| :: s[i] != '|'
    ensures SplitFirst(s, '|') == None
  {
    if s != "" {
      NoSeparator(s[1..]);
    }
  }
}
