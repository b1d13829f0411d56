/** The countdown to a market's deadline: the formatter of a millisecond difference, and the
    `display`/`expired` state that each one-second tick overwrites. */
module Countdown {
  import opened Wrappers
  import opened Arith

  // ---------------------------------------------------------------------------------------
  // Decimal numerals (JavaScript's `${n}` for a non-negative integer)
  // ---------------------------------------------------------------------------------------

  predicate IsDigit(c: char) { '0' <= c <= '9' }

  predicate AllDigits(s: string) { forall i :: 0 <= i < |s| ==> IsDigit(s[i]) }

  function DigitChar(d: nat): (c: char)
    requires d < 10
    ensures IsDigit(c) && c as int - '0' as int == d
  {
    ('0' as int + d) as char
  }

  /** The shortest decimal numeral of `n`: no leading zero except in "0" itself. */
  function NatToString(n: nat): (s: string)
    ensures |s| >= 1 && AllDigits(s)
    ensures |s| == 1 || s[0] != '0'
  {
    if n < 10 then [DigitChar(n)] else NatToString(n / 10) + [DigitChar(n % 10)]
  }

  /** The value of a numeral. */
  function ParseNat(s: string): nat
    requires AllDigits(s)
  {
    if s == [] then 0 else 10 * ParseNat(s[..|s| - 1]) + (s[|s| - 1] as int - '0' as int)
  }

  /** A numeral reads back as the number it was written from. */
  lemma {:induction false} ParseNatToString(n: nat)
    ensures ParseNat(NatToString(n)) == n
  {
    if n >= 10 {
      var s := NatToString(n);
      assert s[..|s| - 1] == NatToString(n / 10);
      ParseNatToString(n / 10);
    }
  }

  /** A numeral without a leading zero denotes a positive number. */
  lemma {:induction false} ParseNatPositive(s: string)
    requires s != [] && AllDigits(s) && s[0] != '0'
    ensures ParseNat(s) >= 1
  {
    if |s| > 1 {
      var p := s[..|s| - 1];
      assert p[0] == s[0];
      ParseNatPositive(p);
    }
  }

  /** Every numeral without a leading zero is the one `NatToString` writes for its value, so
      `NatToString` and `ParseNat` are inverse bijections between numbers and such numerals. */
  lemma {:induction false} NatToStringParseNat(s: string)
    requires |s| >= 1 && AllDigits(s) && (|s| == 1 || s[0] != '0')
    ensures NatToString(ParseNat(s)) == s
  {
    var n := ParseNat(s);
    var d := s[|s| - 1] as int - '0' as int;
    var p := s[..|s| - 1];
    assert n == 10 * ParseNat(p) + d;
    if |s| == 1 {
      assert p == [];
      assert NatToString(n) == [DigitChar(d)];
    } else {
      assert p[0] == s[0];
      ParseNatPositive(p);
      FloorUnique(n, 10, ParseNat(p));
      NatToStringParseNat(p);
      assert NatToString(n) == p + [DigitChar(d)];
      assert s == p + [s[|s| - 1]];
    }
  }

  /** The length of the run of digits at the start of `s`. */
  function SpanDigits(s: string): (k: nat)
    ensures k <= |s| && AllDigits(s[..k])
    ensures k < |s| ==> !IsDigit(s[k])
  {
    if s == [] || !IsDigit(s[0]) then 0
    else
      var k := 1 + SpanDigits(s[1..]);
      assert forall i :: 1 <= i < k ==> s[..k][i] == s[1..][..k - 1][i - 1];
      k
  }

  /** The digit run of a numeral followed by a non-digit (or nothing) is the whole numeral. */
  lemma {:induction false} SpanDigitsPrefix(p: string, t: string)
    requires AllDigits(p)
    requires t == [] || !IsDigit(t[0])
    ensures SpanDigits(p + t) == |p|
  {
    if p != [] {
      assert (p + t)[1..] == p[1..] + t;
      SpanDigitsPrefix(p[1..], t);
    } else {
      assert p + t == t;
    }
  }

  // ---------------------------------------------------------------------------------------
  // Decomposition of a time difference
  // ---------------------------------------------------------------------------------------

  datatype Units = Units(days: nat, hours: nat, minutes: nat, seconds: nat)

  /** The whole seconds of a positive difference (`Math.floor(ms / 1000)`), split into days,
      hours, minutes and seconds: each unit below the next one's size, together exactly the
      whole seconds. */
  function Split(ms: int): (u: Units)
    requires ms > 0
    ensures u.hours < 24 && u.minutes < 60 && u.seconds < 60
    ensures u.days * 86400 + u.hours * 3600 + u.minutes * 60 + u.seconds == ms / 1000
  {
    var total := ms / 1000;
    var u := Units(total / 86400, (total % 86400) / 3600, (total % 3600) / 60, total % 60);
    var r1 := total % 86400;
    var r2 := r1 % 3600;
    assert total == 86400 * u.days + r1 && r1 == 3600 * u.hours + r2;
    FloorUnique(total, 3600, 24 * u.days + u.hours);
    assert total % 3600 == r2;
    var r3 := r2 % 60;
    assert r2 == 60 * (r2 / 60) + r3;
    FloorUnique(total, 60, 60 * (24 * u.days + u.hours) + r2 / 60);
    assert total % 60 == r3;
    u
  }

  // ---------------------------------------------------------------------------------------
  // Display buckets
  // ---------------------------------------------------------------------------------------

  /** The five shapes of the countdown text. */
  datatype Display =
    | Expired
    | DaysHours(d: nat, h: nat)
    | HoursMinutes(h: nat, m: nat)
    | MinutesSeconds(m: nat, s: nat)
    | Seconds(s: nat)

  /** The display `b` shows `secs` remaining whole seconds truncated to its two most significant
      non-zero units: the leading unit is at least one, the second is below its own range, and
      `secs` lies in the interval the pair names. */
  ghost predicate Denotes(b: Display, secs: int) {
    match b
    case Expired => false
    case DaysHours(d, h) =>
      d >= 1 && h < 24 && d * 86400 + h * 3600 <= secs < d * 86400 + (h + 1) * 3600
    case HoursMinutes(h, m) =>
      1 <= h < 24 && m < 60 && h * 3600 + m * 60 <= secs < h * 3600 + (m + 1) * 60
    case MinutesSeconds(m, s) =>
      1 <= m < 60 && s < 60 && m * 60 + s == secs
    case Seconds(s) =>
      s < 60 && s == secs
  }

  /** At most one display denotes a given number of seconds. */
  lemma DenotesUnique(b1: Display, b2: Display, secs: int)
    requires Denotes(b1, secs) && Denotes(b2, secs)
    ensures b1 == b2
  {
    match b1
    case DaysHours(d, h) =>
      if b2.DaysHours? {
        var k, k' := 24 * d + h, 24 * b2.d + b2.h;
        assert 3600 * k <= secs < 3600 * k + 3600;
        assert 3600 * k' <= secs < 3600 * k' + 3600;
        assert k == k';
      }
    case HoursMinutes(h, m) =>
      if b2.HoursMinutes? {
        var k, k' := 60 * h + m, 60 * b2.h + b2.m;
        assert 60 * k <= secs < 60 * k + 60;
        assert 60 * k' <= secs < 60 * k' + 60;
        assert k == k';
      }
    case MinutesSeconds(m, s) =>
    case Seconds(s) =>
  }

  /** The bucket `formatTime` picks for a difference of `ms` milliseconds: "Expired" exactly when
      the difference is not positive, and otherwise the display of the remaining whole seconds. */
  function Bucket(ms: int): (b: Display)
    ensures b == Expired <==> ms <= 0
    ensures ms > 0 ==> Denotes(b, ms / 1000)
  {
    if ms <= 0 then Expired
    else
      var u := Split(ms);
      if u.days > 0 then DaysHours(u.days, u.hours)
      else if u.hours > 0 then HoursMinutes(u.hours, u.minutes)
      else if u.minutes > 0 then MinutesSeconds(u.minutes, u.seconds)
      else Seconds(u.seconds)
  }

  /** The text `${x}u1 ${y}u2` of a two-unit display. */
  function PairText(x: nat, u1: char, y: nat, u2: char): (t: string)
    ensures |t| >= 4 && t[0] == NatToString(x)[0]
  {
    NatToString(x) + [u1] + ([' '] + NatToString(y) + [u2])
  }

  /** The text of a display bucket: "Expired" for the expired bucket only; every other text
      starts with a numeral. */
  function Render(b: Display): (r: string)
    ensures r == "Expired" <==> b == Expired
    ensures b != Expired ==> |r| >= 2 && IsDigit(r[0])
  {
    match b
    case Expired => "Expired"
    case DaysHours(d, h) => PairText(d, 'd', h, 'h')
    case HoursMinutes(h, m) => PairText(h, 'h', m, 'm')
    case MinutesSeconds(m, s) => PairText(m, 'm', s, 's')
    case Seconds(s) => NatToString(s) + ['s']
  }

  /** Reads a numeral followed by a unit character off the front of `s`: the number, the unit
      and what follows the unit. */
  function ParseUnit(s: string): Option<(nat, char, string)> {
    var k := SpanDigits(s);
    if k == 0 || k == |s| then None else Some((ParseNat(s[..k]), s[k], s[k + 1..]))
  }

  /** The two-unit display with leading unit `u1` and second unit `u2`. */
  function PairDisplay(u1: char, u2: char, a: nat, b: nat): Option<Display> {
    if u1 == 'd' && u2 == 'h' then Some(DaysHours(a, b))
    else if u1 == 'h' && u2 == 'm' then Some(HoursMinutes(a, b))
    else if u1 == 'm' && u2 == 's' then Some(MinutesSeconds(a, b))
    else None
  }

  /** Reads a countdown text back into its bucket; `None` for any other text. */
  function ParseDisplay(s: string): Option<Display> {
    if s == "Expired" then Some(Expired)
    else
      match ParseUnit(s)
      case None => None
      case Some((a, u1, rest)) =>
        if rest == [] then (if u1 == 's' then Some(Seconds(a)) else None)
        else if rest[0] != ' ' then None
        else
          match ParseUnit(rest[1..])
          case None => None
          case Some((b, u2, rest2)) => if rest2 != [] then None else PairDisplay(u1, u2, a, b)
  }

  /** A numeral followed by a non-digit unit reads back as the number, the unit and the rest. */
  lemma ParseUnitOf(x: nat, u: char, rest: string)
    requires !IsDigit(u)
    ensures ParseUnit(NatToString(x) + [u] + rest) == Some((x, u, rest))
  {
    var a := NatToString(x);
    var s := a + [u] + rest;
    assert s == a + ([u] + rest);
    SpanDigitsPrefix(a, [u] + rest);
    assert s[..|a|] == a;
    assert s[|a| + 1..] == rest;
    ParseNatToString(x);
  }

  /** A numeral followed by a final non-digit unit reads back as the number and the unit. */
  lemma ParseUnitLast(x: nat, u: char)
    requires !IsDigit(u)
    ensures ParseUnit(NatToString(x) + [u]) == Some((x, u, []))
  {
    ParseUnitOf(x, u, []);
    assert NatToString(x) + [u] + [] == NatToString(x) + [u];
  }

  /** A two-unit text reads back as its display. */
  lemma RenderParsePair(x: nat, u1: char, y: nat, u2: char)
    requires !IsDigit(u1) && !IsDigit(u2)
    ensures ParseDisplay(PairText(x, u1, y, u2)) == PairDisplay(u1, u2, x, y)
  {
    var a, b := NatToString(x), NatToString(y);
    var rest := [' '] + b + [u2];
    var s := a + [u1] + rest;
    assert s[0] == a[0] && IsDigit(a[0]);
    assert s != "Expired";
    ParseUnitOf(x, u1, rest);
    assert rest[0] == ' ' && rest[1..] == b + [u2];
    ParseUnitLast(y, u2);
  }

  /** Every display reads back from its own text. */
  lemma RenderParse(b: Display)
    ensures ParseDisplay(Render(b)) == Some(b)
  {
    match b
    case Expired =>
    case Seconds(x) =>
      var a := NatToString(x);
      assert (a + ['s'])[0] == a[0] && IsDigit(a[0]);
      ParseUnitLast(x, 's');
    case DaysHours(x, y) =>
      RenderParsePair(x, 'd', y, 'h');
    case HoursMinutes(x, y) =>
      RenderParsePair(x, 'h', y, 'm');
    case MinutesSeconds(x, y) =>
      RenderParsePair(x, 'm', y, 's');
  }

  /** `formatTime`: "Expired" exactly when the difference is not positive. */
  function FormatTime(ms: int): (r: string)
    ensures r == "Expired" <==> ms <= 0
  {
    var b := Bucket(ms);
    RenderParse(b);
    Render(b)
  }

  /** A positive difference formats to a text that reads back as the display of the remaining
      whole seconds, so the text always shows the two most significant non-zero units. */
  lemma FormatTimeReadsBack(ms: int)
    requires ms > 0
    ensures ParseDisplay(FormatTime(ms)).Some?
    ensures Denotes(ParseDisplay(FormatTime(ms)).value, ms / 1000)
  {
    RenderParse(Bucket(ms));
  }

  /** Less than a second before the deadline the countdown shows "0s", not "Expired". */
  lemma LastSecond(ms: int)
    requires 0 < ms < 1000
    ensures FormatTime(ms) == "0s"
  {
  }

  /** A difference of one day, one hour, one minute and one second shows "1d 1h". */
  lemma DaysExample()
    ensures FormatTime(90061000) == "1d 1h"
  {
    assert Split(90061000) == Units(1, 1, 1, 1);
  }

  // ---------------------------------------------------------------------------------------
  // The hook's state
  // ---------------------------------------------------------------------------------------

  /** The hook's `target` argument: absent, a `Date` (as its time value), or a number. */
  datatype Target = Absent | DateValue(time: int) | NumberValue(time: int)

  /** `!target` is false: any `Date` object, or a non-zero number. The only falsy targets are
      the absent one and the number 0. */
  predicate Armed(t: Target)
    ensures !Armed(t) <==> t == Absent || t == NumberValue(0)
  {
    t.DateValue? || (t.NumberValue? && t.time != 0)
  }

  /** The `display` and `expired` state of one `useCountdown` instance. */
  class CountdownState {
    var display: string
    var expired: bool

    /** The state never says "expired" with another text, nor shows "Expired" unexpired. */
    ghost predicate Consistent()
      reads this
    {
      expired <==> display == "Expired"
    }

    /** Before any tick: "..." and not expired. */
    constructor ()
      ensures display == "..." && !expired
      ensures Consistent()
    {
      display := "...";
      expired := false;
    }

    /** One `tick` at the instant `now`: expired iff the deadline is not after `now`, and the text
        is the formatted difference. */
    method Tick(targetTime: int, now: int)
      modifies this
      ensures expired == (targetTime - now <= 0)
      ensures display == FormatTime(targetTime - now)
      ensures Consistent()
    {
      var diff := targetTime - now;
      expired := diff <= 0;
      display := FormatTime(diff);
    }

    /** The effect run when `target` changes: nothing without a target, otherwise a first tick. */
    method Start(target: Target, now: int)
      modifies this
      ensures !Armed(target) ==> display == old(display) && expired == old(expired)
      ensures Armed(target) ==> expired == (target.time - now <= 0)
                                && display == FormatTime(target.time - now)
      ensures Armed(target) || old(Consistent()) ==> Consistent()
    {
      if Armed(target) {
        Tick(target.time, now);
      }
    }
  }
}
