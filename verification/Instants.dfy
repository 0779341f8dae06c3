/** Date-time text, its instant in nanoseconds, and the issuer's arithmetic on it:
    `_is_date_time` of vfy/schema.py, `_instant` of vfy/rulebook.py, `_add_seconds` and the
    validity interval of vfy/authorization.py. */
module Instants {
  import opened Wrappers
  import opened Text
  import opened Calendar

  const NANOS: int := 1000000000
  const LETTER_T: Code := 0x54
  const LETTER_Z: Code := 0x5A

  datatype Moment = Moment(date: Date, hour: nat, minute: nat, second: nat, nanos: nat, offset: int)

  predicate DigitsAt(t: Text, i: nat, n: nat)
  {
    i + n <= |t| && AllDigits(t[i..i + n])
  }

  function NumAt(t: Text, i: nat, n: nat): nat
    requires DigitsAt(t, i, n)
  {
    Num(t[i..i + n])
  }

  /** The fixed part `dddd-dd-ddTdd:dd:dd` of the grammar. */
  predicate HasFixedPart(t: Text)
  {
    && |t| >= 20
    && DigitsAt(t, 0, 4) && t[4] == DASH && DigitsAt(t, 5, 2) && t[7] == DASH && DigitsAt(t, 8, 2)
    && t[10] == LETTER_T
    && DigitsAt(t, 11, 2) && t[13] == COLON && DigitsAt(t, 14, 2) && t[16] == COLON && DigitsAt(t, 17, 2)
  }

  /** Where the optional fraction ends; a fraction is a dot and one to nine digits. */
  function FractionEnd(t: Text): (r: Option<nat>)
    requires |t| >= 20
    ensures r.Some? ==> 19 <= r.value <= |t| && AllDigits(t[(if r.value > 19 then 20 else 19)..r.value])
    ensures r.Some? ==> r.value <= 29
  {
    if t[19] != DOT then Some(19)
    else
      var e := DigitRun(t, 20);
      if 21 <= e <= 29 then Some(e) else None
  }

  /** The fraction as nanoseconds: its digits, padded on the right to nine. */
  function Nanos(digits: Text): nat
    requires AllDigits(digits) && |digits| <= 9
    decreases 9 - |digits|
  {
    if |digits| == 9 then Num(digits) else Nanos(digits + [ZERO])
  }

  /** `Z`, or a sign, two digits, a colon and two digits, ending the text. */
  predicate IsZone(t: Text, i: nat)
  {
    || (|t| == i + 1 && t[i] == LETTER_Z)
    || (|t| == i + 6 && t[i] in {PLUS, DASH} && DigitsAt(t, i + 1, 2) && t[i + 3] == COLON && DigitsAt(t, i + 4, 2))
  }

  function ZoneOffset(t: Text, i: nat): int
    requires IsZone(t, i)
  {
    if t[i] == LETTER_Z then 0
    else (if t[i] == PLUS then 1 else -1) * (NumAt(t, i + 1, 2) * 3600 + NumAt(t, i + 4, 2) * 60)
  }

  /** The date-time a text denotes in the frozen grammar, or None. */
  function Parse(t: Text): (r: Option<Moment>)
    ensures r.Some? ==> IsDate(r.value.date) && 0 <= r.value.date.year
  {
    if !HasFixedPart(t) || FractionEnd(t).None? then None
    else
      var z := FractionEnd(t).value;
      if !IsZone(t, z) then None
      else
        var year, month, day := NumAt(t, 0, 4), NumAt(t, 5, 2), NumAt(t, 8, 2);
        var hour, minute, second := NumAt(t, 11, 2), NumAt(t, 14, 2), NumAt(t, 17, 2);
        if !(1 <= month <= 12) || hour > 23 || minute > 59 || second > 59 then None
        else if !(1 <= day <= MonthLength(year, month)) then None
        else if t[z] != LETTER_Z && (NumAt(t, z + 1, 2) > 23 || NumAt(t, z + 4, 2) > 59) then None
        else Some(Moment(Date(year, month, day), hour, minute, second,
                         if z > 19 then Nanos(t[20..z]) else 0, ZoneOffset(t, z)))
  }

  function InstantOf(m: Moment): int
  {
    (DaysFromCivil(m.date) * 86400 + m.hour * 3600 + m.minute * 60 + m.second - m.offset) * NANOS + m.nanos
  }

  /** Exact nanosecond instant of a text; None where the source raises TypeError. */
  function Instant(t: Text): Option<int>
  {
    if Parse(t).None? then None else Some(InstantOf(Parse(t).value))
  }

  // --- rendering -------------------------------------------------------------------------------

  function Zeros(n: int): (t: Text)
    ensures |t| == if n > 0 then n else 0
    ensures forall i :: 0 <= i < |t| ==> t[i] == ZERO
  {
    seq(if n > 0 then n else 0, _ => ZERO)
  }

  /** `%0wd`: the sign, when there is one, counts in the width. */
  function Padded(n: int, w: nat): Text
  {
    if n >= 0 then Zeros(w - |Digits(n)|) + Digits(n)
    else [DASH] + Zeros(w - 1 - |Digits(-n)|) + Digits(-n)
  }

  lemma {:induction false} NumOfZeros(k: nat, t: Text)
    requires AllDigits(t)
    ensures AllDigits(Zeros(k) + t) && Num(Zeros(k) + t) == Num(t)
    decreases |t|, k
  {
    var s := Zeros(k) + t;
    if |t| > 0 {
      NumOfZeros(k, t[..|t| - 1]);
      assert s[..|s| - 1] == Zeros(k) + t[..|t| - 1];
    } else if k > 0 {
      NumOfZeros(k - 1, t);
      assert s[..|s| - 1] == Zeros(k - 1) + t;
    } else {
      assert s == t;
    }
  }

  lemma DigitsLength(n: nat)
    ensures |Digits(n)| <= 2 <==> n < 100
    ensures |Digits(n)| <= 4 <==> n < 10000
  {
    assert |Digits(n)| == if n < 10 then 1 else 1 + |Digits(n / 10)|;
    assert |Digits(n / 10)| == if n < 100 then 1 else 1 + |Digits(n / 100)| by { assert n / 10 / 10 == n / 100; }
    assert |Digits(n / 100)| == if n < 1000 then 1 else 1 + |Digits(n / 1000)| by { assert n / 100 / 10 == n / 1000; }
    assert |Digits(n / 1000)| == 1 <==> n < 10000;
  }

  lemma PaddedReads(n: int, w: nat)
    requires (w == 2 && 0 <= n < 100) || (w == 4 && 0 <= n < 10000)
    ensures |Padded(n, w)| == w && AllDigits(Padded(n, w)) && Num(Padded(n, w)) == n
  {
    DigitsLength(n);
    NumOfZeros(w - |Digits(n)|, Digits(n));
  }

  function Layout(year: Text, month: Text, day: Text, hour: Text, minute: Text, second: Text): Text
  {
    year + [DASH] + month + [DASH] + day + [LETTER_T] + hour + [COLON] + minute + [COLON] + second + [LETTER_Z]
  }

  function RenderMoment(date: Date, hour: int, minute: int, second: int): Text
  {
    Layout(Padded(date.year, 4), Padded(date.month, 2), Padded(date.day, 2),
           Padded(hour, 2), Padded(minute, 2), Padded(second, 2))
  }

  /** Days are rendered by the calendar, the rest of the day as a clock. */
  function RenderDay(days: int, remainder: int): Text
  {
    RenderMoment(CivilFromDays(days), remainder / 3600, remainder % 3600 / 60, remainder % 3600 % 60)
  }

  function RenderSeconds(total: int): Text
  {
    RenderDay(total / 86400, total % 86400)
  }

  /** Render an instant plus a whole number of seconds. */
  function AddSeconds(t: Text, seconds: int): Option<Text>
  {
    if Instant(t).None? then None
    else Some(RenderSeconds((Instant(t).value + seconds * NANOS) / NANOS))
  }

  lemma LayoutSlices(y: Text, mo: Text, d: Text, h: Text, mi: Text, s: Text)
    requires |y| == 4 && |mo| == |d| == |h| == |mi| == |s| == 2
    ensures var t := Layout(y, mo, d, h, mi, s);
            && |t| == 20 && t[4] == t[7] == DASH && t[10] == LETTER_T && t[13] == t[16] == COLON && t[19] == LETTER_Z
            && t[0..0 + 4] == y && t[5..5 + 2] == mo && t[8..8 + 2] == d
            && t[11..11 + 2] == h && t[14..14 + 2] == mi && t[17..17 + 2] == s
  {
    var date := y + [DASH] + mo + [DASH] + d;
    var time := h + [COLON] + mi + [COLON] + s;
    assert |date| == 10 && date[0..4] == y && date[5..7] == mo && date[8..10] == d && date[4] == date[7] == DASH;
    assert |time| == 8 && time[0..2] == h && time[3..5] == mi && time[6..8] == s && time[2] == time[5] == COLON;
    var t := Layout(y, mo, d, h, mi, s);
    assert t == date + [LETTER_T] + time + [LETTER_Z];
    assert t[..10] == date && t[11..19] == time;
    assert t[0..4] == t[..10][0..4] && t[5..7] == t[..10][5..7] && t[8..10] == t[..10][8..10];
    assert t[11..13] == t[11..19][0..2] && t[14..16] == t[11..19][3..5] && t[17..19] == t[11..19][6..8];
    assert t[4] == t[..10][4] && t[7] == t[..10][7] && t[13] == t[11..19][2] && t[16] == t[11..19][5];
  }

  lemma LayoutReads(t: Text, y: Text, mo: Text, d: Text, h: Text, mi: Text, s: Text)
    requires |y| == 4 && |mo| == |d| == |h| == |mi| == |s| == 2
    requires t == Layout(y, mo, d, h, mi, s)
    requires AllDigits(y) && AllDigits(mo) && AllDigits(d) && AllDigits(h) && AllDigits(mi) && AllDigits(s)
    requires 1 <= Num(mo) <= 12 && Num(h) <= 23 && Num(mi) <= 59 && Num(s) <= 59
    requires 1 <= Num(d) <= MonthLength(Num(y), Num(mo))
    ensures Parse(t) == Some(Moment(Date(Num(y), Num(mo), Num(d)), Num(h), Num(mi), Num(s), 0, 0))
  {
    LayoutSlices(y, mo, d, h, mi, s);
    assert HasFixedPart(t) && FractionEnd(t) == Some(19) && IsZone(t, 19);
    assert NumAt(t, 0, 4) == Num(y) && NumAt(t, 5, 2) == Num(mo) && NumAt(t, 8, 2) == Num(d);
    assert NumAt(t, 11, 2) == Num(h) && NumAt(t, 14, 2) == Num(mi) && NumAt(t, 17, 2) == Num(s);
  }

  /** A rendered moment whose year fits four digits reads back. */
  lemma RenderedMomentReads(date: Date, hour: int, minute: int, second: int)
    requires IsDate(date) && 0 <= date.year <= 9999
    requires 0 <= hour < 24 && 0 <= minute < 60 && 0 <= second < 60
    ensures Parse(RenderMoment(date, hour, minute, second)) == Some(Moment(date, hour, minute, second, 0, 0))
  {
    PaddedReads(date.year, 4);
    PaddedReads(date.month, 2);
    PaddedReads(date.day, 2);
    PaddedReads(hour, 2);
    PaddedReads(minute, 2);
    PaddedReads(second, 2);
    LayoutReads(RenderMoment(date, hour, minute, second),
                Padded(date.year, 4), Padded(date.month, 2), Padded(date.day, 2),
                Padded(hour, 2), Padded(minute, 2), Padded(second, 2));
  }

  lemma LayoutStarts(y: Text, mo: Text, d: Text, h: Text, mi: Text, s: Text, i: nat)
    requires i < |y|
    ensures |Layout(y, mo, d, h, mi, s)| > i && Layout(y, mo, d, h, mi, s)[i] == y[i]
  {
    assert Layout(y, mo, d, h, mi, s)
        == y + ([DASH] + mo + [DASH] + d + [LETTER_T] + h + [COLON] + mi + [COLON] + s + [LETTER_Z]);
  }

  lemma FixedPartStarts(t: Text)
    requires HasFixedPart(t)
    ensures IsDigit(t[0]) && t[4] == DASH
  {
    assert t[0..0 + 4][0] == t[0];
  }

  /** A year outside four digits is rendered as no date-time at all. */
  lemma RenderedYearUnreadable(date: Date, hour: int, minute: int, second: int)
    requires !(0 <= date.year <= 9999)
    ensures Parse(RenderMoment(date, hour, minute, second)).None?
  {
    var t := RenderMoment(date, hour, minute, second);
    var y := Padded(date.year, 4);
    if date.year >= 0 { DigitsLength(date.year); }
    var i := if date.year < 0 then 0 else 4;
    LayoutStarts(y, Padded(date.month, 2), Padded(date.day, 2), Padded(hour, 2), Padded(minute, 2), Padded(second, 2), i);
    if date.year >= 0 {
      assert y == Digits(date.year);
      assert IsDigit(y[4]);
    }
    if HasFixedPart(t) { FixedPartStarts(t); }
  }

  // --- texts with a fraction and a zone ----------------------------------------------------------

  /** Z, or a sign, hours and minutes. */
  datatype Zone = Utc | Ahead(hours: nat, minutes: nat) | Behind(hours: nat, minutes: nat)

  function ZoneText(z: Zone): (t: Text)
    ensures t != []
  {
    match z
    case Utc => [LETTER_Z]
    case Ahead(h, m) => [PLUS] + Padded(h, 2) + [COLON] + Padded(m, 2)
    case Behind(h, m) => [DASH] + Padded(h, 2) + [COLON] + Padded(m, 2)
  }

  /** How far local time is ahead of UTC. */
  function AheadBy(z: Zone): int
  {
    match z
    case Utc => 0
    case Ahead(h, m) => h * 3600 + m * 60
    case Behind(h, m) => -(h * 3600 + m * 60)
  }

  /** Local time on a date, the digits of its fraction of a second, if it has one, and its zone. */
  datatype Local = Local(date: Date, hour: int, minute: int, second: int, fraction: Text, zone: Zone)

  predicate IsLocal(l: Local)
  {
    && IsDate(l.date) && 0 <= l.date.year <= 9999
    && 0 <= l.hour <= 23 && 0 <= l.minute <= 59 && 0 <= l.second <= 59
    && AllDigits(l.fraction) && |l.fraction| <= 9
    && (!l.zone.Utc? ==> l.zone.hours <= 23 && l.zone.minutes <= 59)
  }

  /** The first nineteen characters: date and clock. */
  function FixedText(l: Local): Text
  {
    Padded(l.date.year, 4) + [DASH] + Padded(l.date.month, 2) + [DASH] + Padded(l.date.day, 2)
    + [LETTER_T] + Padded(l.hour, 2) + [COLON] + Padded(l.minute, 2) + [COLON] + Padded(l.second, 2)
  }

  function LocalText(l: Local): Text
  {
    FixedText(l) + (if l.fraction == [] then [] else [DOT] + l.fraction) + ZoneText(l.zone)
  }

  /** The moment in nanoseconds: the local seconds less what the zone is ahead, and the fraction. */
  function LocalInstant(l: Local): int
    requires AllDigits(l.fraction) && |l.fraction| <= 9
  {
    (DaysFromCivil(l.date) * 86400 + l.hour * 3600 + l.minute * 60 + l.second - AheadBy(l.zone)) * 1000000000
    + Num(l.fraction) * Pow10(9 - |l.fraction|)
  }

  lemma TenTimes(n: nat, k: nat)
    ensures (10 * n) * Pow10(k) == n * Pow10(k + 1)
  {
    assert Pow10(k + 1) == 10 * Pow10(k);
  }

  lemma {:induction false} NanosScale(f: Text)
    requires AllDigits(f) && |f| <= 9
    ensures Nanos(f) == Num(f) * Pow10(9 - |f|)
    decreases 9 - |f|
  {
    if |f| == 9 {
      assert Pow10(0) == 1;
    } else {
      var g := f + [ZERO];
      assert g[..|f|] == f && Num(g) == 10 * Num(f);
      NanosScale(g);
      TenTimes(Num(f), 8 - |f|);
      hide Num, Pow10;
    }
  }

  /** The fixed part reads as the numbers it was padded from, whatever follows it. */
  lemma FixedReads(l: Local, post: Text)
    requires IsLocal(l) && post != []
    ensures var t := FixedText(l) + post;
            && |FixedText(l)| == 19 && HasFixedPart(t) && t[19..] == post
            && NumAt(t, 0, 4) == l.date.year && NumAt(t, 5, 2) == l.date.month && NumAt(t, 8, 2) == l.date.day
            && NumAt(t, 11, 2) == l.hour && NumAt(t, 14, 2) == l.minute && NumAt(t, 17, 2) == l.second
  {
    var (y, mo, d) := (Padded(l.date.year, 4), Padded(l.date.month, 2), Padded(l.date.day, 2));
    var (h, mi, s) := (Padded(l.hour, 2), Padded(l.minute, 2), Padded(l.second, 2));
    PaddedReads(l.date.year, 4);
    PaddedReads(l.date.month, 2);
    PaddedReads(l.date.day, 2);
    PaddedReads(l.hour, 2);
    PaddedReads(l.minute, 2);
    PaddedReads(l.second, 2);
    hide Padded, Num, AllDigits;
    FixedSlices(y, mo, d, h, mi, s, post);
  }

  lemma FixedSlices(y: Text, mo: Text, d: Text, h: Text, mi: Text, s: Text, post: Text)
    requires |y| == 4 && |mo| == |d| == |h| == |mi| == |s| == 2
    ensures var t := y + [DASH] + mo + [DASH] + d + [LETTER_T] + h + [COLON] + mi + [COLON] + s + post;
            && |t| == 19 + |post| && t[4] == t[7] == DASH && t[10] == LETTER_T && t[13] == t[16] == COLON && t[19..] == post
            && t[0..0 + 4] == y && t[5..5 + 2] == mo && t[8..8 + 2] == d
            && t[11..11 + 2] == h && t[14..14 + 2] == mi && t[17..17 + 2] == s
  {
    LayoutSlices(y, mo, d, h, mi, s);
    var z := Layout(y, mo, d, h, mi, s);
    var t := y + [DASH] + mo + [DASH] + d + [LETTER_T] + h + [COLON] + mi + [COLON] + s + post;
    assert t[..19] == z[..19];
    hide Layout;
    assert forall i :: 0 <= i < 19 ==> t[i] == t[..19][i] && z[i] == z[..19][i];
    assert t[0..4] == z[0..4] && t[5..7] == z[5..7] && t[8..10] == z[8..10];
    assert t[11..13] == z[11..13] && t[14..16] == z[14..16] && t[17..19] == z[17..19];
  }

  lemma ZoneReads(pre: Text, z: Zone)
    requires !z.Utc? ==> z.hours <= 23 && z.minutes <= 59
    ensures var t := pre + ZoneText(z);
            && IsZone(t, |pre|) && ZoneOffset(t, |pre|) == AheadBy(z) && (t[|pre|] == LETTER_Z <==> z.Utc?)
            && !IsDigit(ZoneText(z)[0]) && ZoneText(z)[0] != DOT
            && (!z.Utc? ==>
                  && DigitsAt(t, |pre| + 1, 2) && DigitsAt(t, |pre| + 4, 2)
                  && NumAt(t, |pre| + 1, 2) == z.hours && NumAt(t, |pre| + 4, 2) == z.minutes)
  {
    if !z.Utc? {
      PaddedReads(z.hours, 2);
      PaddedReads(z.minutes, 2);
      var sign := if z.Ahead? then PLUS else DASH;
      ZoneSlices(pre, sign, Padded(z.hours, 2), Padded(z.minutes, 2));
      hide Padded, Num, AllDigits;
    }
  }

  lemma ZoneSlices(pre: Text, sign: Code, h: Text, m: Text)
    requires |h| == |m| == 2
    ensures var t := pre + ([sign] + h + [COLON] + m);
            && |t| == |pre| + 6 && t[|pre|] == sign && t[|pre| + 3] == COLON
            && t[|pre| + 1..|pre| + 1 + 2] == h && t[|pre| + 4..|pre| + 4 + 2] == m
  {
    var z := [sign] + h + [COLON] + m;
    var t := pre + z;
    assert z[1..3] == h && z[4..6] == m && z[3] == COLON;
    assert t[|pre|..] == z;
    assert t[|pre| + 1..|pre| + 3] == t[|pre|..][1..3] && t[|pre| + 4..|pre| + 6] == t[|pre|..][4..6];
    assert t[|pre| + 3] == t[|pre|..][3];
  }

  lemma FractionReads(pre: Text, f: Text, post: Text)
    requires |pre| == 19 && AllDigits(f) && |f| <= 9 && post != [] && !IsDigit(post[0]) && post[0] != DOT
    ensures var t := pre + (if f == [] then [] else [DOT] + f) + post;
            var z := if f == [] then 19 else 20 + |f|;
            |t| >= 20 && FractionEnd(t) == Some(z) && t[z..] == post && (f != [] ==> t[20..z] == f)
  {
    var t := pre + (if f == [] then [] else [DOT] + f) + post;
    if f == [] {
      assert t == pre + post && t[19] == post[0];
    } else {
      var z := 20 + |f|;
      assert t[19] == DOT && t[20..z] == f && t[z..] == post && t[z] == post[0];
      forall k | 20 <= k < z ensures IsDigit(t[k]) { assert t[k] == f[k - 20]; }
      RunUnique(t, 20, z);
    }
  }

  lemma LocalParses(l: Local)
    requires IsLocal(l)
    ensures Parse(LocalText(l))
         == Some(Moment(l.date, l.hour, l.minute, l.second, if l.fraction == [] then 0 else Nanos(l.fraction), AheadBy(l.zone)))
  {
    hide FixedText, ZoneText, HasFixedPart, FractionEnd, IsZone, ZoneOffset, Padded, NumAt, Nanos, Num, Parse, AheadBy;
    var (fixed, zone) := (FixedText(l), ZoneText(l.zone));
    var middle := if l.fraction == [] then [] else [DOT] + l.fraction;
    var t := LocalText(l);
    ZoneReads(fixed + middle, l.zone);
    FixedReads(l, middle + zone);
    FractionReads(fixed, l.fraction, zone);
    assert t == fixed + (middle + zone);
    assert FractionEnd(t) == Some(|fixed + middle|);
    ParsesAs(l, t, |fixed + middle|);
  }

  /** A local text is a date-time, and it names its instant: a zone that is ahead makes it that much earlier, a
      zone behind that much later, and a fraction of k digits counts by 10 to the power of 9 - k nanoseconds. */
  lemma LocalTextReads(l: Local)
    requires IsLocal(l)
    ensures Instant(LocalText(l)) == Some(LocalInstant(l))
  {
    hide LocalText, Parse, Nanos, Num, DaysFromCivil, Pow10, AheadBy, IsLocal, InstantOf, LocalInstant;
    LocalParses(l);
    SameInstant(l);
  }

  lemma SameInstant(l: Local)
    requires IsLocal(l)
    ensures InstantOf(Moment(l.date, l.hour, l.minute, l.second, if l.fraction == [] then 0 else Nanos(l.fraction), AheadBy(l.zone)))
         == LocalInstant(l)
  {
    hide Nanos, Num, DaysFromCivil, Pow10, AheadBy, IsDate;
    NanosScale(l.fraction);
    NoFraction();
  }

  lemma NoFraction()
    ensures Num([]) * Pow10(9) == 0
  {
  }

  lemma ParsesAs(l: Local, t: Text, z: nat)
    requires IsLocal(l) && HasFixedPart(t) && FractionEnd(t) == Some(z) && IsZone(t, z) && ZoneOffset(t, z) == AheadBy(l.zone)
    requires NumAt(t, 0, 4) == l.date.year && NumAt(t, 5, 2) == l.date.month && NumAt(t, 8, 2) == l.date.day
    requires NumAt(t, 11, 2) == l.hour && NumAt(t, 14, 2) == l.minute && NumAt(t, 17, 2) == l.second
    requires t[z] == LETTER_Z <==> l.zone.Utc?
    requires !l.zone.Utc? ==> DigitsAt(t, z + 1, 2) && DigitsAt(t, z + 4, 2) && NumAt(t, z + 1, 2) == l.zone.hours && NumAt(t, z + 4, 2) == l.zone.minutes
    requires if l.fraction == [] then z == 19 else z == 20 + |l.fraction| && t[20..z] == l.fraction
    ensures Parse(t) == Some(Moment(l.date, l.hour, l.minute, l.second, if l.fraction == [] then 0 else Nanos(l.fraction), AheadBy(l.zone)))
  {
    hide NumAt, Nanos, ZoneOffset, HasFixedPart, FractionEnd;
  }

  lemma DigitsSnoc(n: nat, d: nat)
    requires n > 0 && d < 10
    ensures Digits(10 * n + d) == Digits(n) + [ZERO + d]
  {
    assert (10 * n + d) / 10 == n && (10 * n + d) % 10 == d;
  }

  lemma OneDigit(d: nat)
    requires d < 10
    ensures Digits(d) == [ZERO + d]
  {
  }

  lemma PadZero(init: Text, last: Code)
    requires init != [] && init == Zeros(|init| - 1) + [ZERO]
    ensures Zeros(|init|) + [last] == init + [last]
  {
    assert Zeros(|init|) == init;
  }

  lemma PadMore(init: Text, d: Text, last: Code)
    requires |d| <= |init| && Zeros(|init| - |d|) + d == init
    ensures Zeros(|init| + 1 - |d + [last]|) + (d + [last]) == init + [last]
  {
  }

  lemma {:induction false} PaddedBack(t: Text)
    requires AllDigits(t) && t != []
    ensures |Digits(Num(t))| <= |t| && Zeros(|t| - |Digits(Num(t))|) + Digits(Num(t)) == t
  {
    hide Digits;
    var init, last := t[..|t| - 1], t[|t| - 1] - ZERO;
    assert t == init + [ZERO + last] && Num(t) == 10 * Num(init) + last;
    hide Num, AllDigits, Zeros;
    OneDigit(last);
    if init == [] {
      NumOfNothing();
      NoZeros();
    } else {
      PaddedBack(init);
      OneDigit(0);
      if Num(init) == 0 {
        PadZero(init, ZERO + last);
      } else {
        DigitsSnoc(Num(init), last);
        PadMore(init, Digits(Num(init)), ZERO + last);
      }
    }
  }

  lemma NoZeros()
    ensures Zeros(0) == []
  {
  }

  lemma NumOfNothing()
    ensures Num([]) == 0
  {
  }

  lemma PaddedIs(t: Text, w: nat)
    requires AllDigits(t) && |t| == w > 0
    ensures Padded(Num(t), w) == t
  {
    PaddedBack(t);
  }

  /** The local text a date-time is. */
  function LocalOf(t: Text): Local
    requires Parse(t).Some?
  {
    var m, z := Parse(t).value, FractionEnd(t).value;
    Local(m.date, m.hour, m.minute, m.second, if z > 19 then t[20..z] else [],
          if t[z] == LETTER_Z then Utc
          else if t[z] == PLUS then Ahead(NumAt(t, z + 1, 2), NumAt(t, z + 4, 2))
          else Behind(NumAt(t, z + 1, 2), NumAt(t, z + 4, 2)))
  }

  lemma FixedIs(t: Text)
    requires Parse(t).Some?
    ensures FixedText(LocalOf(t)) == t[..19]
  {
    PaddedIs(t[0..0 + 4], 4);
    PaddedIs(t[5..5 + 2], 2);
    PaddedIs(t[8..8 + 2], 2);
    PaddedIs(t[11..11 + 2], 2);
    PaddedIs(t[14..14 + 2], 2);
    PaddedIs(t[17..17 + 2], 2);
    var l := LocalOf(t);
    assert l.date.year == Num(t[0..0 + 4]) && l.date.month == Num(t[5..5 + 2]) && l.date.day == Num(t[8..8 + 2]);
    assert l.hour == Num(t[11..11 + 2]) && l.minute == Num(t[14..14 + 2]) && l.second == Num(t[17..17 + 2]);
    hide Padded, Num, AllDigits, LocalOf, Parse, FractionEnd;
    assert t[4] == t[7] == DASH && t[10] == LETTER_T && t[13] == t[16] == COLON;
    assert t[..19] == t[0..4] + [t[4]] + t[5..7] + [t[7]] + t[8..10] + [t[10]] + t[11..13] + [t[13]] + t[14..16] + [t[16]] + t[17..19];
  }

  lemma ZoneIs(t: Text)
    requires Parse(t).Some?
    ensures ZoneText(LocalOf(t).zone) == t[FractionEnd(t).value..]
  {
    ZoneTextIs(t, FractionEnd(t).value);
    hide ZoneText, IsZone, NumAt;
  }

  lemma ZoneTextIs(t: Text, z: nat)
    requires z < |t| && IsZone(t, z)
    ensures t[z] != LETTER_Z ==> DigitsAt(t, z + 1, 2) && DigitsAt(t, z + 4, 2)
    ensures ZoneText(if t[z] == LETTER_Z then Utc
                     else if t[z] == PLUS then Ahead(NumAt(t, z + 1, 2), NumAt(t, z + 4, 2))
                     else Behind(NumAt(t, z + 1, 2), NumAt(t, z + 4, 2))) == t[z..]
  {
    if t[z] != LETTER_Z {
      PaddedIs(t[z + 1..z + 1 + 2], 2);
      PaddedIs(t[z + 4..z + 4 + 2], 2);
      hide Padded, Num, AllDigits;
      assert t[z..] == [t[z]] + t[z + 1..z + 3] + [t[z + 3]] + t[z + 4..z + 6];
    } else {
      assert t[z..] == [t[z]];
    }
  }

  lemma MiddleIs(t: Text)
    requires |t| >= 20 && FractionEnd(t).Some?
    ensures var z := FractionEnd(t).value;
            t[19..z] == (if z > 19 then [DOT] + t[20..z] else []) && (z > 19 ==> 21 <= z && AllDigits(t[20..z]))
  {
    var z := FractionEnd(t).value;
    if z > 19 { assert t[19..z] == [t[19]] + t[20..z]; }
  }

  /** The date-times are exactly the local texts, each naming the instant of its local time. */
  lemma DateTimesExactly(t: Text)
    ensures Parse(t).Some? <==> exists l :: IsLocal(l) && t == LocalText(l)
    ensures Parse(t).Some? ==> IsLocal(LocalOf(t)) && t == LocalText(LocalOf(t)) && Instant(t) == Some(LocalInstant(LocalOf(t)))
  {
    if Parse(t).Some? {
      var l, z := LocalOf(t), FractionEnd(t).value;
      LocalOfIsLocal(t);
      FixedIs(t);
      ZoneIs(t);
      MiddleIs(t);
      assert t == t[..19] + t[19..z] + t[z..];
      hide FixedText, ZoneText, Instant, LocalInstant, Parse, FractionEnd;
      assert t == LocalText(l);
      LocalTextReads(l);
    }
    if l :| IsLocal(l) && t == LocalText(l) { LocalTextReads(l); }
  }

  lemma LocalOfIsLocal(t: Text)
    requires Parse(t).Some?
    ensures IsLocal(LocalOf(t))
    ensures LocalOf(t).fraction == (if FractionEnd(t).value > 19 then t[20..FractionEnd(t).value] else [])
  {
    MiddleIs(t);
    NumBelow(t[0..0 + 4]);
    hide Num;
  }

  lemma NumBelow(y: Text)
    requires AllDigits(y) && |y| == 4
    ensures Num(y) <= 9999
  {
    assert Num(y) == 10 * Num(y[..3]) + (y[3] - ZERO);
    assert Num(y[..3]) == 10 * Num(y[..3][..2]) + (y[..3][2] - ZERO);
    assert Num(y[..3][..2]) == 10 * Num(y[..3][..2][..1]) + (y[..3][..2][1] - ZERO);
    assert Num(y[..3][..2][..1]) == 10 * Num(y[..3][..2][..1][..0]) + (y[..3][..2][..1][0] - ZERO);
    assert y[..3][..2][..1][..0] == [];
  }

  // --- the issuer's arithmetic is exact ----------------------------------------------------------

  /** Last day four digits of year can write: 9999-12-31. */
  const LAST_DAY: int := 2932896

  /** Earliest day the renderer gets right: 0000-02-29. */
  const FIRST_DAY: int := -719469

  lemma LastDayIsLast()
    ensures DaysFromCivil(Date(9999, 12, 31)) == LAST_DAY
  {
  }

  lemma YearWithinFourDigits(days: int)
    requires days >= FIRST_DAY
    ensures CivilFromDays(days).year <= 9999 <==> days <= LAST_DAY
  {
    hide CivilFromDays, DaysFromCivil;
    var d := CivilFromDays(days);
    DaysOfRenderedDate(days);
    LastDayIsLast();
    var last := Date(9999, 12, 31);
    if DateLess(last, d) { DaysStrictlyIncrease(last, d); }
    if DateLess(d, last) { DaysStrictlyIncrease(d, last); }
  }

  lemma ClockOfDay(remainder: int)
    requires 0 <= remainder < 86400
    ensures 0 <= remainder / 3600 < 24 && 0 <= remainder % 3600 / 60 < 60 && 0 <= remainder % 3600 % 60 < 60
    ensures remainder / 3600 * 3600 + remainder % 3600 / 60 * 60 + remainder % 3600 % 60 == remainder
  {
  }

  lemma RenderDayReads(days: int, remainder: int)
    requires 0 <= remainder < 86400
    requires IsDate(CivilFromDays(days)) && 0 <= CivilFromDays(days).year <= 9999
    ensures Instant(RenderDay(days, remainder))
         == Some((DaysFromCivil(CivilFromDays(days)) * 86400 + remainder) * NANOS)
  {
    hide RenderMoment, CivilFromDays, IsDate, Parse, DaysFromCivil;
    ClockOfDay(remainder);
    RenderedMomentReads(CivilFromDays(days), remainder / 3600, remainder % 3600 / 60, remainder % 3600 % 60);
  }

  /** A day and a second of it are rendered readably and right exactly from 0000-02-29 to
      9999-12-31. */
  lemma RenderDayExact(days: int, remainder: int)
    requires 0 <= remainder < 86400
    ensures Instant(RenderDay(days, remainder)) == Some((days * 86400 + remainder) * NANOS)
            <==> FIRST_DAY <= days <= LAST_DAY
  {
    hide RenderMoment, CivilFromDays, IsDate, Parse, DaysFromCivil;
    if days < FIRST_DAY { RenderedWrongBelow(days); }
    if days >= FIRST_DAY {
      YearWithinFourDigits(days);
      DaysOfRenderedDate(days);
    }
    if 0 <= CivilFromDays(days).year <= 9999 {
      RenderDayReads(days, remainder);
    } else {
      RenderedYearUnreadable(CivilFromDays(days), remainder / 3600, remainder % 3600 / 60, remainder % 3600 % 60);
    }
  }

  predicate WritableSeconds(total: int)
  {
    FIRST_DAY * 86400 <= total < (LAST_DAY + 1) * 86400
  }

  lemma RenderSecondsExact(total: int)
    ensures Instant(RenderSeconds(total)) == Some(total * NANOS) <==> WritableSeconds(total)
  {
    hide RenderDay, Instant;
    var days, remainder := total / 86400, total % 86400;
    RenderDayExact(days, remainder);
    assert days * 86400 + remainder == total;
    assert FIRST_DAY <= days <= LAST_DAY <==> WritableSeconds(total);
  }

  lemma SumFloors(instant: int, seconds: int)
    ensures (instant + seconds * NANOS) / NANOS == instant / NANOS + seconds
  {
  }

  /** Adding seconds to a text gives the text of the sum, sub-second part dropped, exactly when
      the sum falls in 0000-02-29 .. 9999-12-31; outside, the result is unreadable or wrong. */
  lemma AddSecondsAdds(t: Text, seconds: int)
    requires Instant(t).Some?
    ensures AddSeconds(t, seconds).Some?
    ensures Instant(AddSeconds(t, seconds).value) == Some((Instant(t).value / NANOS + seconds) * NANOS)
            <==> WritableSeconds(Instant(t).value / NANOS + seconds)
  {
    hide RenderSeconds, Instant;
    SumFloors(Instant(t).value, seconds);
    RenderSecondsExact(Instant(t).value / NANOS + seconds);
  }

  // --- the validity interval ---------------------------------------------------------------------

  datatype IntervalError = NotYetValid | Expired | BindingMismatch | NotADateTime

  /** The instants the issuer writes: refused when issued before the freeze, otherwise the expiry
      text is computed from the rulebook's time to live, and refused when the schema, which the completed
      authorization is validated against, does not take it for a date-time. */
  function IssueExpiry(issuedAt: Text, frozenAt: Text, ttl: int): Result<Text, IntervalError>
  {
    if Instant(issuedAt).None? || Instant(frozenAt).None? then Err(NotYetValid)
    else if Instant(issuedAt).value < Instant(frozenAt).value then Err(NotYetValid)
    else if Parse(AddSeconds(issuedAt, ttl).value).None? then Err(NotADateTime)
    else Ok(AddSeconds(issuedAt, ttl).value)
  }

  /** The verifier's checks of the interval, in its order; `now` is None for a historical check. */
  function CheckInterval(issuedAt: Text, expiresAt: Text, frozenAt: Text, ttl: int, now: Option<Text>)
    : Result<(), IntervalError>
  {
    if Instant(issuedAt).None? || Instant(expiresAt).None? || Instant(frozenAt).None? then Err(NotYetValid)
    else
      var issued, expires := Instant(issuedAt).value, Instant(expiresAt).value;
      if issued < Instant(frozenAt).value then Err(NotYetValid)
      else if expires <= issued then Err(Expired)
      else if expires != (issued / NANOS + ttl) * NANOS then Err(BindingMismatch)
      else if now.None? then Ok(())
      else if Instant(now.value).None? then Err(NotYetValid)
      else if Instant(now.value).value < issued then Err(NotYetValid)
      else if Instant(now.value).value >= expires then Err(Expired)
      else Ok(())
  }

  /** The verifier's answer for texts that can be read, each way it can come out: issued before the freeze or
      looked at before it was issued; over before it began or looked at after its end; and an end that is not the
      whole second of issue and the time to live. */
  lemma IntervalExactly(issuedAt: Text, expiresAt: Text, frozenAt: Text, ttl: int, now: Option<Text>)
    requires Instant(issuedAt).Some? && Instant(expiresAt).Some? && Instant(frozenAt).Some?
    requires now.Some? ==> Instant(now.value).Some?
    ensures var (issued, expires, frozen) := (Instant(issuedAt).value, Instant(expiresAt).value, Instant(frozenAt).value);
            var derived := (issued / 1000000000 + ttl) * 1000000000;
            var at := if now.Some? then Instant(now.value) else None;
            var r := CheckInterval(issuedAt, expiresAt, frozenAt, ttl, now);
            && (r.Ok? <==> frozen <= issued < expires == derived && (at.Some? ==> issued <= at.value < expires))
            && (r == Err(BindingMismatch) <==> frozen <= issued < expires != derived)
            && (r == Err(Expired) <==>
                  frozen <= issued && (expires <= issued || (expires == derived && at.Some? && at.value >= expires)))
            && (r == Err(NotYetValid) <==>
                  issued < frozen || (issued < expires == derived && at.Some? && at.value < issued))
  {
    hide Instant;
  }

  /** The issuer refuses exactly the issues before the freeze, and those whose expiry IssuedExactly refuses. */
  lemma IssueRefuses(issuedAt: Text, frozenAt: Text, ttl: int)
    requires Instant(issuedAt).Some? && Instant(frozenAt).Some?
    ensures IssueExpiry(issuedAt, frozenAt, ttl) == Err(NotYetValid) <==> Instant(issuedAt).value < Instant(frozenAt).value
    ensures IssueExpiry(issuedAt, frozenAt, ttl).Err? ==> IssueExpiry(issuedAt, frozenAt, ttl).error in {NotYetValid, NotADateTime}
  {
    hide Instant, Parse, RenderSeconds;
  }

  /** Issuer and verifier agree: for a time to live of at least one second, what was issued is
      accepted exactly when its expiry is a date the renderer writes right, and then it can be
      spent exactly from its issue to `ttl` whole seconds after the second it was issued in. */
  lemma IssuedIsAccepted(issuedAt: Text, frozenAt: Text, ttl: int, now: Text)
    requires ttl >= 1 && IssueExpiry(issuedAt, frozenAt, ttl).Ok? && Instant(now).Some?
    ensures var expiresAt := IssueExpiry(issuedAt, frozenAt, ttl).value;
            var issued := Instant(issuedAt).value;
            && (CheckInterval(issuedAt, expiresAt, frozenAt, ttl, None).Ok? <==> WritableSeconds(issued / NANOS + ttl))
            && (CheckInterval(issuedAt, expiresAt, frozenAt, ttl, Some(now)).Ok? <==>
                  WritableSeconds(issued / NANOS + ttl) && issued <= Instant(now).value < (issued / NANOS + ttl) * NANOS)
  {
    hide AddSeconds, Instant;
    AddSecondsAdds(issuedAt, ttl);
    ExpiryIsLater(Instant(issuedAt).value, ttl);
  }

  /** Issue refuses for its expiry exactly the texts whose year does not fit four digits. Every expiry from
      0000-02-29 on is issued right, and the few below that can be written at all are issued one day late. */
  lemma IssuedExactly(issuedAt: Text, frozenAt: Text, ttl: int)
    requires Instant(issuedAt).Some? && Instant(frozenAt).Some? && Instant(issuedAt).value >= Instant(frozenAt).value
    ensures var total := Instant(issuedAt).value / NANOS + ttl;
            var issue := IssueExpiry(issuedAt, frozenAt, ttl);
            && (issue.Ok? <==> 0 <= CivilFromDays(total / 86400).year <= 9999)
            && (WritableSeconds(total) ==> issue.Ok?)
            && (issue.Err? ==> issue == Err(NotADateTime))
            && (issue.Ok? ==> issue.value == RenderSeconds(total)
                              && Instant(issue.value) == Some((total + if total / 86400 < FIRST_DAY then 86400 else 0) * NANOS))
  {
    hide RenderSeconds, CivilFromDays, Parse, InstantOf;
    var total := Instant(issuedAt).value / NANOS + ttl;
    SumIs(issuedAt, ttl);
    RenderSecondsExact(total);
    if 0 <= CivilFromDays(total / 86400).year <= 9999 { SecondsReadable(total); } else { SecondsUnreadable(total); }
  }

  lemma SumIs(t: Text, seconds: int)
    requires Instant(t).Some?
    ensures AddSeconds(t, seconds) == Some(RenderSeconds(Instant(t).value / NANOS + seconds))
  {
    hide RenderSeconds, Instant;
    SumFloors(Instant(t).value, seconds);
  }

  lemma SecondsReadable(total: int)
    requires 0 <= CivilFromDays(total / 86400).year <= 9999
    ensures Instant(RenderSeconds(total)) == Some((total + if total / 86400 < FIRST_DAY then 86400 else 0) * NANOS)
  {
    hide RenderMoment, CivilFromDays, IsDate, Instant, DaysFromCivil;
    var days, remainder := total / 86400, total % 86400;
    if days < FIRST_DAY { RenderedWrongBelow(days); } else { DaysOfRenderedDate(days); }
    RenderDayReads(days, remainder);
    hide RenderDay;
    assert days * 86400 + remainder == total;
  }

  lemma SecondsUnreadable(total: int)
    requires !(0 <= CivilFromDays(total / 86400).year <= 9999)
    ensures Parse(RenderSeconds(total)).None?
  {
    var days, remainder := total / 86400, total % 86400;
    RenderedYearUnreadable(CivilFromDays(days), remainder / 3600, remainder % 3600 / 60, remainder % 3600 % 60);
    hide RenderMoment, CivilFromDays, Parse;
  }

  /** The texts in between, with a year of four digits and wrong, do exist: an authorization issued on
      0000-02-28 for one second is issued, with an expiry a day late, and refused by every verifier. */
  lemma IssuedAndRefused(now: Option<Text>)
    ensures var issuedAt := RenderMoment(Date(0, 2, 28), 0, 0, 0);
            && IssueExpiry(issuedAt, issuedAt, 1) == Ok(RenderMoment(Date(0, 2, 29), 0, 0, 1))
            && CheckInterval(issuedAt, RenderMoment(Date(0, 2, 29), 0, 0, 1), issuedAt, 1, now).Err?
  {
    hide RenderMoment, RenderSeconds, Parse, CheckInterval, WritableSeconds, DaysFromCivil;
    var issuedAt, expiresAt := RenderMoment(Date(0, 2, 28), 0, 0, 0), RenderMoment(Date(0, 2, 29), 0, 0, 1);
    RenderedMomentReads(Date(0, 2, 28), 0, 0, 0);
    RenderedMomentReads(Date(0, 2, 29), 0, 0, 1);
    RenderedDayTooLate();
    var total := -719470 * 86400 + 1;
    assert Instant(issuedAt) == Some((total - 1) * NANOS);
    hide Instant;
    assert (total - 1) * NANOS / NANOS == total - 1;
    SumIs(issuedAt, 1);
    LateSecond();
    assert AddSeconds(issuedAt, 1) == Some(expiresAt);
    RenderSecondsExact(total);
    Unwritable(total);
    if CheckInterval(issuedAt, expiresAt, issuedAt, 1, now).Ok? {
      AcceptedExpiryIsDerived(issuedAt, expiresAt, issuedAt, 1, now);
      IntervalRead(issuedAt, expiresAt, issuedAt, 1, now);
    }
    IssueIsReadable(issuedAt, 1);
  }

  lemma IntervalRead(issuedAt: Text, expiresAt: Text, frozenAt: Text, ttl: int, now: Option<Text>)
    requires CheckInterval(issuedAt, expiresAt, frozenAt, ttl, now).Ok?
    ensures Instant(expiresAt).Some?
  {
  }

  lemma IssueIsReadable(issuedAt: Text, ttl: int)
    requires Instant(issuedAt).Some? && AddSeconds(issuedAt, ttl).Some? && Parse(AddSeconds(issuedAt, ttl).value).Some?
    ensures IssueExpiry(issuedAt, issuedAt, ttl) == Ok(AddSeconds(issuedAt, ttl).value)
  {
    hide AddSeconds, Parse, InstantOf;
  }

  /** The second after midnight of the day the renderer gets wrong. */
  lemma LateSecond()
    ensures RenderSeconds(-719470 * 86400 + 1) == RenderMoment(Date(0, 2, 29), 0, 0, 1)
  {
    RenderedDayTooLate();
    hide RenderMoment, CivilFromDays, DaysFromCivil;
    var total := -719470 * 86400 + 1;
    assert total / 86400 == -719470 && total % 86400 == 1;
  }

  lemma Unwritable(total: int)
    requires total == -719470 * 86400 + 1
    ensures !WritableSeconds(total)
  {
  }

  lemma ExpiryIsLater(issued: int, ttl: int)
    ensures (issued / NANOS + ttl) * NANOS > issued <==> ttl >= 1
  {
  }

  /** No other expiry passes: an accepted text names the derived instant and no later one. */
  lemma AcceptedExpiryIsDerived(issuedAt: Text, expiresAt: Text, frozenAt: Text, ttl: int, now: Option<Text>)
    requires CheckInterval(issuedAt, expiresAt, frozenAt, ttl, now).Ok?
    ensures ttl >= 1 && Instant(expiresAt).value == (Instant(issuedAt).value / NANOS + ttl) * NANOS
    ensures Instant(frozenAt).value <= Instant(issuedAt).value < Instant(expiresAt).value
  {
    ExpiryIsLater(Instant(issuedAt).value, ttl);
  }
}
