/** The termination times the camera object asks for (onvif/client.py), and what an absolute one
    means on a device whose clock is off. Times are in microseconds since 0001-01-01T00:00:00Z. */
module Deadlines {
  import opened Wrappers
  import opened Calendar
  import opened DateTimes
  import opened DateTimeMeaning
  import opened Text

  const SECOND: int := 1_000_000
  const DAY: int := 86400 * SECOND
  const UTC := Trailer(0, Some(0))

  /** A second of a day as datetime prints it in UTC, with Z for the offset. */
  function IsoText(day: nat, second: nat): string
    requires day < MAX_DAYS && second < 86400
  {
    DateOfDayNumber(day);
    DateTimeText(DateOf(day), second / 3600, second / 60 % 60, second % 60, "Z")
  }

  /** datetime.isoformat(timespec="seconds"): the rest of the second is cut off. */
  function IsoSeconds(at: nat): string
    requires at / DAY < MAX_DAYS
  {
    IsoText(at / DAY, at / SECOND % 86400)
  }

  /** int(): towards zero. */
  function Truncated(micros: int): int {
    if micros < 0 then -(-micros / SECOND) else micros / SECOND
  }

  /** get_next_termination_time at host time `now`; None is the OverflowError of a date out of
      datetime's range. */
  function NextTerminationTime(broken: bool, now: int, duration: int, dtDiff: Option<int>): Option<string> {
    if !broken then Some("PT" + Decimal(Truncated(duration)) + "S")
    else
      var at := now + duration + (if dtDiff.Some? then dtDiff.value else 0);
      if at < 0 || at / DAY >= MAX_DAYS then None else Some(IsoSeconds(at))
  }

  /** The number a text of decimal digits stands for. */
  function ReadNumber(s: string): nat
    requires forall i :: 0 <= i < |s| ==> IsDigit(s[i])
  {
    if s == "" then 0 else 10 * ReadNumber(s[..|s| - 1]) + DigitValue(s[|s| - 1])
  }

  lemma {:induction false} DigitsReadBack(n: nat)
    ensures ReadNumber(Digits(n)) == n
    decreases n
  {
    var s := Digits(n);
    if n >= 10 {
      DigitsReadBack(n / 10);
      assert s[..|s| - 1] == Digits(n / 10);
    } else {
      assert s[..|s| - 1] == "";
    }
  }

  /** The number a text of decimal digits, with a minus or not, stands for. */
  function ReadSigned(s: string): int
    requires forall i :: 0 <= i < |s| ==> IsDigit(s[i]) || (i == 0 && s[0] == '-')
  {
    if s != "" && s[0] == '-' then 0 - ReadNumber(s[1..]) else ReadNumber(s)
  }

  lemma DecimalReadsBack(n: int)
    ensures var s := Decimal(n);
            && (forall i :: 0 <= i < |s| ==> IsDigit(s[i]) || (i == 0 && s[0] == '-'))
            && ReadSigned(s) == n
  {
    DigitsReadBack(if n < 0 then -n else n);
    if n < 0 {
      assert Decimal(n)[1..] == Digits(-n);
    }
  }

  lemma TruncatedTowardsZero(duration: int)
    ensures duration >= 0 ==> Truncated(duration) * SECOND <= duration < (Truncated(duration) + 1) * SECOND
    ensures duration <= 0 ==> (Truncated(duration) - 1) * SECOND < duration <= Truncated(duration) * SECOND
  {
  }

  /** The relative form is a number of whole seconds, the duration asked for cut off towards zero
      (section 3.2.6 of XML Schema Part 2), whatever either clock says. */
  lemma RelativeFormReadsBack(now: int, duration: int, dtDiff: Option<int>)
    ensures var text := NextTerminationTime(false, now, duration, dtDiff);
            && text.Some? && |text.value| >= 3
            && text.value[..2] == "PT" && text.value[|text.value| - 1] == 'S'
            && var number := text.value[2..|text.value| - 1];
               && (forall i :: 0 <= i < |number| ==> IsDigit(number[i]) || (i == 0 && number[0] == '-'))
               && var seconds := ReadSigned(number);
                  && (duration >= 0 ==> seconds * SECOND <= duration < (seconds + 1) * SECOND)
                  && (duration <= 0 ==> (seconds - 1) * SECOND < duration <= seconds * SECOND)
  {
    var n := Truncated(duration);
    DecimalReadsBack(n);
    TruncatedTowardsZero(duration);
    var text := "PT" + Decimal(n) + "S";
    assert text[2..|text| - 1] == Decimal(n);
  }

  lemma ClockOfSecond(second: nat)
    requires second < 86400
    ensures Seconds(second / 3600, second / 60 % 60, second % 60) == second && second / 3600 < 24
  {
  }

  /** FastDateTime reads a printed second of a day back. */
  lemma SecondReadsBack(g: Parsers, d: Date, h: nat, m: nat, s: nat, zone: string, text: string, seconds: nat)
    requires ValidDate(d) && h < 100 && m < 100 && s < 100 && Understand(g, zone, UTC)
    requires text == DateTimeText(d, h, m, s, zone) && seconds == Meaning(d, h, m, s)
    ensures DateTimeValue(g, text) == Some(DateTime(seconds, UTC))
  {
    ReadAsMeaning(g, d, h, m, s, zone, UTC);
  }

  lemma DaysAndSeconds(at: nat)
    ensures 86400 * (at / DAY) + at / SECOND % 86400 == at / SECOND
  {
  }

  /** FastDateTime reads the absolute form back to exactly the second it was cut off to. */
  lemma AbsoluteFormReadsBack(g: Parsers, at: nat)
    requires at / DAY < MAX_DAYS && Understand(g, "Z", UTC)
    ensures DateTimeValue(g, IsoSeconds(at)) == Some(DateTime(at / SECOND, UTC))
  {
    DaysAndSeconds(at);
    DateOfDayNumber(at / DAY);
    var second := at / SECOND % 86400;
    ClockOfSecond(second);
    SecondReadsBack(g, DateOf(at / DAY), second / 3600, second / 60 % 60, second % 60, "Z", IsoSeconds(at), at / SECOND);
  }

  /** The device clock, `skew` off the host's. The handshake reads it, cut off to the second, at
      host time `asked`, and compares it with the host clock at `compared`. */
  function Handshake(skew: int, asked: int, compared: int): int {
    (asked + skew) / SECOND * SECOND - compared
  }

  /** With the handshake's offset applied, the absolute deadline denotes, on the device clock, a
      time no later than now + duration less the handshake's latency, and less than two seconds
      before that; and that is what FastDateTime reads. */
  lemma DeadlineOnDeviceClock(g: Parsers, skew: int, asked: int, compared: int, now: int, duration: int)
    requires asked <= compared && Understand(g, "Z", UTC)
    requires NextTerminationTime(true, now, duration, Some(Handshake(skew, asked, compared))).Some?
    ensures var text := NextTerminationTime(true, now, duration, Some(Handshake(skew, asked, compared))).value;
            var deadline := DateTimeValue(g, text);
            var latency, deviceNow := compared - asked, now + skew;
            && deadline.Some? && deadline.value.trailer == UTC
            && deviceNow + duration - 2 * SECOND - latency < deadline.value.seconds * SECOND
            && deadline.value.seconds * SECOND <= deviceNow + duration - latency
  {
    var at := now + duration + Handshake(skew, asked, compared);
    AbsoluteFormReadsBack(g, at);
    assert at - SECOND < at / SECOND * SECOND <= at;
    assert asked + skew - SECOND < (asked + skew) / SECOND * SECOND <= asked + skew;
  }

  /** Without a known offset, as before any handshake, the absolute deadline is now + duration on the
      host's clock, cut off to the second. */
  lemma DeadlineOnHostClock(g: Parsers, now: int, duration: int)
    requires Understand(g, "Z", UTC) && NextTerminationTime(true, now, duration, None).Some?
    ensures var deadline := DateTimeValue(g, NextTerminationTime(true, now, duration, None).value);
            && deadline.Some? && deadline.value.trailer == UTC
            && now + duration - SECOND < deadline.value.seconds * SECOND <= now + duration
  {
    AbsoluteFormReadsBack(g, now + duration);
  }

  /** There is no deadline exactly when it would lie before the year 1 or after the year 9999, and
      only an absolute one can. */
  lemma NoDeadlineExactlyWhen(now: int, duration: int, dtDiff: Option<int>)
    ensures NextTerminationTime(false, now, duration, dtDiff).Some?
    ensures var at := now + duration + (if dtDiff.Some? then dtDiff.value else 0);
            NextTerminationTime(true, now, duration, dtDiff).None? <==> at < 0 || at >= MAX_DAYS * 86400 * 1_000_000
  {
    var at := now + duration + (if dtDiff.Some? then dtDiff.value else 0);
    if at >= 0 {
      LastDays(at);
    }
  }

  lemma LastDays(at: int)
    requires at >= 0
    ensures at / DAY >= MAX_DAYS <==> at >= MAX_DAYS * 86400 * 1_000_000
  {
  }

  /** The days before the year 10000. */
  lemma DaysOfDatetime(year: nat)
    requires year == MAX_YEAR + 1
    ensures DaysBeforeYear(year) == MAX_DAYS
  {
    DaysBeforeYearFormula(year);
  }
}
