/** Order numbers: "ORD", the first 14 digits of the creation time in ISO
    form (year to second), and a zero-padded random number in [0, 9999].
    The wall clock and `Math.random()` are parameters. */
module OrderNo {
  import opened Api

  /** A calendar instant in UTC, the fields `toISOString` prints. */
  datatype DateTime = DateTime(year: nat, month: nat, day: nat, hour: nat, minute: nat, second: nat, millis: nat)

  /** Years beyond 9999 print with a sign and six digits and are excluded. */
  predicate ValidDateTime(t: DateTime)
  {
    t.year <= 9999 && 1 <= t.month <= 12 && 1 <= t.day <= 31
    && t.hour <= 23 && t.minute <= 59 && t.second <= 59 && t.millis <= 999
  }

  predicate IsDigit(c: char) { '0' <= c <= '9' }

  predicate AllDigits(s: string) { forall k :: 0 <= k < |s| ==> IsDigit(s[k]) }

  function DigitChar(d: nat): (c: char)
    requires d < 10
    ensures IsDigit(c)
  {
    ('0' as int + d) as char
  }

  function DigitValue(c: char): nat
    requires IsDigit(c)
  {
    c as int - '0' as int
  }

  function Pow10(n: nat): nat
  {
    if n == 0 then 1 else 10 * Pow10(n - 1)
  }

  /** `n.toString()` for a non-negative integer. */
  function Decimal(n: nat): (r: string)
    ensures |r| >= 1 && AllDigits(r)
  {
    if n < 10 then [DigitChar(n)] else Decimal(n / 10) + [DigitChar(n % 10)]
  }

  /** The number a string of decimal digits denotes. */
  function DecimalValue(s: string): nat
    requires AllDigits(s)
  {
    if s == [] then 0 else 10 * DecimalValue(s[..|s| - 1]) + DigitValue(s[|s| - 1])
  }

  /** `s.padStart(width, fill)`. */
  function PadStart(s: string, width: nat, fill: char): (r: string)
  {
    if |s| >= width then s else seq(width - |s|, _ => fill) + s
  }

  function Padded(n: nat, width: nat): string
  {
    PadStart(Decimal(n), width, '0')
  }

  /** `Date.prototype.toISOString`: "YYYY-MM-DDTHH:mm:ss.sssZ". */
  function Iso(t: DateTime): string
  {
    Padded(t.year, 4) + "-" + Padded(t.month, 2) + "-" + Padded(t.day, 2)
    + "T" + Padded(t.hour, 2) + ":" + Padded(t.minute, 2) + ":" + Padded(t.second, 2)
    + "." + Padded(t.millis, 3) + "Z"
  }

  predicate IsSeparator(c: char) { c == '-' || c == ':' || c == 'T' || c == '.' }

  /** `s.replace(/[-:T.]/g, '')`. */
  function RemoveSeparators(s: string): string
  {
    if s == [] then []
    else (if IsSeparator(s[0]) then [] else [s[0]]) + RemoveSeparators(s[1..])
  }

  /** `s.slice(start, end)` for non-negative bounds, which it clamps. */
  function Slice(s: string, start: nat, end: nat): string
  {
    if start >= end || start >= |s| then []
    else s[start..if end <= |s| then end else |s|]
  }

  /** `Math.floor(random * 10000)` for `random` in [0, 1). */
  function RandomSuffix(random: real): (n: nat)
    requires 0.0 <= random < 1.0
    ensures n <= 9999
  {
    (random * 10000.0).Floor
  }

  /** `generateOrderNo()` at instant `now` with `Math.random()` = `random`. */
  function GenerateOrderNo(now: DateTime, random: real): (r: string)
    requires 0.0 <= random < 1.0
    ensures |r| >= 3 && r[..3] == "ORD"
    ensures |r| <= 3 + 14 + |Padded(RandomSuffix(random), 4)|
  {
    "ORD" + Slice(RemoveSeparators(Iso(now)), 0, 14) + Padded(RandomSuffix(random), 4)
  }

  /** The fields an order number encodes. */
  datatype OrderNoFields = OrderNoFields(year: nat, month: nat, day: nat, hour: nat, minute: nat, second: nat, suffix: nat)

  /** Reads an order number back; None when it is not "ORD" and 18 digits. */
  function ParseOrderNo(s: string): (r: Option<OrderNoFields>)
  {
    if |s| == 21 && s[..3] == "ORD"
       && AllDigits(s[3..7]) && AllDigits(s[7..9]) && AllDigits(s[9..11]) && AllDigits(s[11..13])
       && AllDigits(s[13..15]) && AllDigits(s[15..17]) && AllDigits(s[17..21])
    then
      Some(OrderNoFields(
        DecimalValue(s[3..7]), DecimalValue(s[7..9]), DecimalValue(s[9..11]),
        DecimalValue(s[11..13]), DecimalValue(s[13..15]), DecimalValue(s[15..17]),
        DecimalValue(s[17..21])))
    else None
  }

  // ----- decimal digits -----

  lemma {:induction false} DecimalRoundTrip(n: nat)
    ensures DecimalValue(Decimal(n)) == n
  {
    if n >= 10 {
      var s := Decimal(n);
      assert s[..|s| - 1] == Decimal(n / 10);
      DecimalRoundTrip(n / 10);
    }
  }

  lemma {:induction false} DecimalLength(n: nat, w: nat)
    requires 1 <= w && n < Pow10(w)
    ensures |Decimal(n)| <= w
  {
    if n >= 10 {
      assert w >= 2;
      assert n / 10 < Pow10(w - 1);
      DecimalLength(n / 10, w - 1);
    }
  }

  lemma {:induction false} ZerosValue(z: string)
    requires forall k :: 0 <= k < |z| ==> z[k] == '0'
    ensures AllDigits(z) && DecimalValue(z) == 0
  {
    if z != [] {
      ZerosValue(z[..|z| - 1]);
    }
  }

  lemma {:induction false} LeadingZeros(z: string, s: string)
    requires forall k :: 0 <= k < |z| ==> z[k] == '0'
    requires AllDigits(s)
    ensures AllDigits(z + s) && DecimalValue(z + s) == DecimalValue(s)
  {
    if s == [] {
      assert z + s == z;
      ZerosValue(z);
    } else {
      var zs := z + s;
      assert zs[..|zs| - 1] == z + s[..|s| - 1];
      LeadingZeros(z, s[..|s| - 1]);
    }
  }

  /** Zero padding to a width that fits the number keeps its value. */
  lemma PaddedRoundTrip(n: nat, w: nat)
    requires 1 <= w && n < Pow10(w)
    ensures |Padded(n, w)| == w && AllDigits(Padded(n, w))
    ensures DecimalValue(Padded(n, w)) == n
  {
    DecimalLength(n, w);
    DecimalRoundTrip(n);
    var d := Decimal(n);
    if |d| < w {
      LeadingZeros(seq(w - |d|, _ => '0'), d);
    }
  }

  // ----- the ISO timestamp -----

  lemma {:induction false} RemoveSeparatorsAppend(a: string, b: string)
    ensures RemoveSeparators(a + b) == RemoveSeparators(a) + RemoveSeparators(b)
  {
    if a != [] {
      assert (a + b)[1..] == a[1..] + b;
      RemoveSeparatorsAppend(a[1..], b);
    } else {
      assert a + b == b;
    }
  }

  lemma {:induction false} RemoveSeparatorsDigits(s: string)
    requires AllDigits(s)
    ensures RemoveSeparators(s) == s
  {
    if s != [] {
      RemoveSeparatorsDigits(s[1..]);
      assert s == [s[0]] + s[1..];
    }
  }

  /** Dropping the separator `sep` in front of a run of digits. */
  lemma StripSeparatorPiece(a: string, sep: char, digits: string)
    requires IsSeparator(sep) && AllDigits(digits)
    ensures RemoveSeparators(a + [sep] + digits) == RemoveSeparators(a) + digits
  {
    RemoveSeparatorsAppend(a + [sep], digits);
    RemoveSeparatorsAppend(a, [sep]);
    RemoveSeparatorsDigits(digits);
  }

  /** The 14 characters taken from the ISO string are the zero-padded year,
      month, day, hour, minute and second. */
  lemma TimestampDigits(t: DateTime)
    requires ValidDateTime(t)
    ensures Slice(RemoveSeparators(Iso(t)), 0, 14)
         == Padded(t.year, 4) + Padded(t.month, 2) + Padded(t.day, 2)
          + Padded(t.hour, 2) + Padded(t.minute, 2) + Padded(t.second, 2)
  {
    var y, mo, d := Padded(t.year, 4), Padded(t.month, 2), Padded(t.day, 2);
    var h, mi, s := Padded(t.hour, 2), Padded(t.minute, 2), Padded(t.second, 2);
    var ms := Padded(t.millis, 3);
    PaddedRoundTrip(t.year, 4);
    PaddedRoundTrip(t.month, 2);
    PaddedRoundTrip(t.day, 2);
    PaddedRoundTrip(t.hour, 2);
    PaddedRoundTrip(t.minute, 2);
    PaddedRoundTrip(t.second, 2);
    PaddedRoundTrip(t.millis, 3);
    var a2 := y + "-" + mo;
    var a3 := a2 + "-" + d;
    var a4 := a3 + "T" + h;
    var a5 := a4 + ":" + mi;
    var a6 := a5 + ":" + s;
    var a7 := a6 + "." + ms;
    RemoveSeparatorsDigits(y);
    StripSeparatorPiece(y, '-', mo);
    StripSeparatorPiece(a2, '-', d);
    StripSeparatorPiece(a3, 'T', h);
    StripSeparatorPiece(a4, ':', mi);
    StripSeparatorPiece(a5, ':', s);
    StripSeparatorPiece(a6, '.', ms);
    RemoveSeparatorsAppend(a7, "Z");
    assert Iso(t) == a7 + "Z";
    var lead := y + mo + d + h + mi + s;
    assert RemoveSeparators(Iso(t)) == lead + ms + "Z";
    assert |lead| == 14;
    assert (lead + ms + "Z")[0..14] == lead;
  }

  // ----- the order number -----

  lemma AllDigitsAppend(a: string, b: string)
    requires AllDigits(a) && AllDigits(b)
    ensures AllDigits(a + b)
  {
    forall k | 0 <= k < |a + b| ensures IsDigit((a + b)[k]) {
      if k >= |a| { assert (a + b)[k] == b[k - |a|]; }
    }
  }

  lemma FieldAt(prefix: string, field: string, suffix: string)
    ensures (prefix + field + suffix)[|prefix|..|prefix| + |field|] == field
  {
  }

  lemma FieldSlices(y: string, mo: string, d: string, h: string, mi: string, s: string, n: string)
    requires |y| == 4 && |mo| == 2 && |d| == 2 && |h| == 2 && |mi| == 2 && |s| == 2 && |n| == 4
    ensures var no := "ORD" + (y + mo + d + h + mi + s) + n;
      |no| == 21 && no[..3] == "ORD" && no[3..] == y + mo + d + h + mi + s + n
      && no[3..7] == y && no[7..9] == mo && no[9..11] == d && no[11..13] == h
      && no[13..15] == mi && no[15..17] == s && no[17..21] == n
  {
    assert "ORD" + (y + mo + d + h + mi + s) + n == "ORD" + y + mo + d + h + mi + s + n;
    FieldAt("ORD", y, mo + d + h + mi + s + n);
    FieldAt("ORD" + y, mo, d + h + mi + s + n);
    FieldAt("ORD" + y + mo, d, h + mi + s + n);
    FieldAt("ORD" + y + mo + d, h, mi + s + n);
    FieldAt("ORD" + y + mo + d + h, mi, s + n);
    FieldAt("ORD" + y + mo + d + h + mi, s, n);
    FieldAt("ORD" + y + mo + d + h + mi + s, n, "");
  }

  /** A string laid out as "ORD" and seven digit fields reads back as
      the fields' values. */
  lemma ParseFields(no: string, y: string, mo: string, d: string, h: string, mi: string, s: string, n: string)
    requires |no| == 21 && no[..3] == "ORD"
    requires no[3..7] == y && no[7..9] == mo && no[9..11] == d && no[11..13] == h
    requires no[13..15] == mi && no[15..17] == s && no[17..21] == n
    requires AllDigits(y) && AllDigits(mo) && AllDigits(d) && AllDigits(h)
    requires AllDigits(mi) && AllDigits(s) && AllDigits(n)
    ensures ParseOrderNo(no) == Some(OrderNoFields(
           DecimalValue(y), DecimalValue(mo), DecimalValue(d), DecimalValue(h),
           DecimalValue(mi), DecimalValue(s), DecimalValue(n)))
  {
    ParseShape(no);
  }

  lemma ParseShape(no: string)
    requires |no| == 21 && no[..3] == "ORD"
    requires AllDigits(no[3..7]) && AllDigits(no[7..9]) && AllDigits(no[9..11]) && AllDigits(no[11..13])
    requires AllDigits(no[13..15]) && AllDigits(no[15..17]) && AllDigits(no[17..21])
    ensures ParseOrderNo(no) == Some(OrderNoFields(
        DecimalValue(no[3..7]), DecimalValue(no[7..9]), DecimalValue(no[9..11]),
        DecimalValue(no[11..13]), DecimalValue(no[13..15]), DecimalValue(no[15..17]),
        DecimalValue(no[17..21])))
  {
  }

  /** The digit fields of an order number, and what they read back as. */
  lemma Layout(y: string, mo: string, d: string, h: string, mi: string, s: string, n: string)
    requires |y| == 4 && |mo| == 2 && |d| == 2 && |h| == 2 && |mi| == 2 && |s| == 2 && |n| == 4
    requires AllDigits(y) && AllDigits(mo) && AllDigits(d) && AllDigits(h)
    requires AllDigits(mi) && AllDigits(s) && AllDigits(n)
    ensures var no := "ORD" + (y + mo + d + h + mi + s) + n;
      && |no| == 21 && no[..3] == "ORD" && AllDigits(no[3..])
      && ParseOrderNo(no) == Some(OrderNoFields(
           DecimalValue(y), DecimalValue(mo), DecimalValue(d), DecimalValue(h),
           DecimalValue(mi), DecimalValue(s), DecimalValue(n)))
  {
    var no := "ORD" + (y + mo + d + h + mi + s) + n;
    FieldSlices(y, mo, d, h, mi, s, n);
    AllDigitsAppend(y, mo);
    AllDigitsAppend(y + mo, d);
    AllDigitsAppend(y + mo + d, h);
    AllDigitsAppend(y + mo + d + h, mi);
    AllDigitsAppend(y + mo + d + h + mi, s);
    AllDigitsAppend(y + mo + d + h + mi + s, n);
    ParseFields(no, y, mo, d, h, mi, s, n);
  }

  /** An order number is "ORD" followed by the padded fields of the instant
      and the padded random suffix. */
  lemma OrderNoPieces(now: DateTime, random: real)
    requires ValidDateTime(now) && 0.0 <= random < 1.0
    ensures GenerateOrderNo(now, random)
         == "ORD" + (Padded(now.year, 4) + Padded(now.month, 2) + Padded(now.day, 2)
          + Padded(now.hour, 2) + Padded(now.minute, 2) + Padded(now.second, 2))
          + Padded(RandomSuffix(random), 4)
  {
    TimestampDigits(now);
  }

  /** Every order number is "ORD" and 18 digits, 21 characters in all. */
  lemma OrderNoFormat(now: DateTime, random: real)
    requires ValidDateTime(now) && 0.0 <= random < 1.0
    ensures var no := GenerateOrderNo(now, random);
      |no| == 21 && no[..3] == "ORD" && AllDigits(no[3..])
  {
    OrderNoRoundTrip(now, random);
  }

  /** Reading an order number back gives the instant, to the second, and the
      random suffix it was made from. */
  lemma OrderNoRoundTrip(now: DateTime, random: real)
    requires ValidDateTime(now) && 0.0 <= random < 1.0
    ensures var no := GenerateOrderNo(now, random);
      && |no| == 21 && no[..3] == "ORD" && AllDigits(no[3..])
      && ParseOrderNo(no)
         == Some(OrderNoFields(now.year, now.month, now.day, now.hour, now.minute, now.second, RandomSuffix(random)))
  {
    PaddedRoundTrip(now.year, 4);
    PaddedRoundTrip(now.month, 2);
    PaddedRoundTrip(now.day, 2);
    PaddedRoundTrip(now.hour, 2);
    PaddedRoundTrip(now.minute, 2);
    PaddedRoundTrip(now.second, 2);
    PaddedRoundTrip(RandomSuffix(random), 4);
    OrderNoPieces(now, random);
    Layout(Padded(now.year, 4), Padded(now.month, 2), Padded(now.day, 2), Padded(now.hour, 2),
           Padded(now.minute, 2), Padded(now.second, 2), Padded(RandomSuffix(random), 4));
  }

  /** Two equal order numbers come from the same second and the same
      random suffix. */
  lemma OrderNoCollision(t1: DateTime, r1: real, t2: DateTime, r2: real)
    requires ValidDateTime(t1) && 0.0 <= r1 < 1.0
    requires ValidDateTime(t2) && 0.0 <= r2 < 1.0
    requires GenerateOrderNo(t1, r1) == GenerateOrderNo(t2, r2)
    ensures t1.(millis := 0) == t2.(millis := 0)
    ensures RandomSuffix(r1) == RandomSuffix(r2)
  {
    OrderNoRoundTrip(t1, r1);
    OrderNoRoundTrip(t2, r2);
  }
}
