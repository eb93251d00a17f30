/** The strictest parsers the readers can stand on: exactly the shapes and ranges of sections 3.2.7
    and 3.2.8 of XML Schema Part 2, and a trailer. They show what the tolerance adds. */
module StrictParsers {
  import opened Wrappers
  import opened Calendar
  import opened DateTimes
  import opened DateTimeMeaning

  function TwoDigits(s: string): Option<nat> {
    if |s| == 2 && IsDigit(s[0]) && IsDigit(s[1]) then Some(10 * DigitValue(s[0]) + DigitValue(s[1])) else None
  }

  function FourDigits(s: string): Option<nat> {
    if |s| != 4 || TwoDigits(s[..2]).None? || TwoDigits(s[2..]).None? then None
    else Some(100 * TwoDigits(s[..2]).value + TwoDigits(s[2..]).value)
  }

  /** hh:mm:ss */
  function ReadClock(s: string): (r: Option<nat>)
    requires |s| == 8
  {
    var h, m, sec := TwoDigits(s[..2]), TwoDigits(s[3..5]), TwoDigits(s[6..]);
    if s[2] != ':' || s[5] != ':' || h.None? || m.None? || sec.None? || !InRange(h.value, m.value, sec.value) then None
    else Some(Seconds(h.value, m.value, sec.value))
  }

  /** YYYY-MM-DD */
  function ReadDate(s: string): (r: Option<Date>)
    requires |s| == 10
    ensures r.Some? ==> ValidDate(r.value)
  {
    var y, m, d := FourDigits(s[..4]), TwoDigits(s[5..7]), TwoDigits(s[8..]);
    if s[4] != '-' || s[7] != '-' || y.None? || m.None? || d.None? || !ValidDate(Date(y.value, m.value, d.value)) then None
    else Some(Date(y.value, m.value, d.value))
  }

  function ReadDateTime(trailers: string -> Option<Trailer>, v: string): Option<DateTime> {
    if |v| < 19 || v[10] != 'T' || ReadDate(v[..10]).None? || ReadClock(v[11..19]).None? || trailers(v[19..]).None? then None
    else Some(DateTime(86400 * DayNumber(ReadDate(v[..10]).value) + ReadClock(v[11..19]).value, trailers(v[19..]).value))
  }

  function ReadTime(trailers: string -> Option<Trailer>, v: string): Option<Time> {
    if |v| < 8 || ReadClock(v[..8]).None? || trailers(v[8..]).None? then None
    else Some(Time(ReadClock(v[..8]).value, trailers(v[8..]).value))
  }

  function Strict(trailers: string -> Option<Trailer>): Parsers {
    Parsers((v: string) => ReadDateTime(trailers, v), (v: string) => ReadTime(trailers, v))
  }

  lemma ClockRead(h: nat, m: nat, s: nat)
    requires h < 100 && m < 100 && s < 100
    ensures ReadClock(ClockText(h, m, s)) == if InRange(h, m, s) then Some(Seconds(h, m, s)) else None
  {
  }

  lemma DateRead(d: Date)
    requires ValidDate(d)
    ensures |DateText(d)| == 10 && ReadDate(DateText(d)) == Some(d)
  {
  }

  lemma DateTimeRead(trailers: string -> Option<Trailer>, d: Date, h: nat, m: nat, s: nat, trailer: string)
    requires ValidDate(d) && h < 100 && m < 100 && s < 100 && trailers(trailer).Some?
    ensures ReadDateTime(trailers, DateTimeText(d, h, m, s, trailer))
         == if InRange(h, m, s) then Some(DateTime(Meaning(d, h, m, s), trailers(trailer).value)) else None
  {
    DateRead(d);
    ClockRead(h, m, s);
    var v := DateTimeText(d, h, m, s, trailer);
    assert v[..10] == DateText(d) && v[11..19] == ClockText(h, m, s) && v[19..] == trailer;
  }

  lemma TimeRead(trailers: string -> Option<Trailer>, h: nat, m: nat, s: nat, trailer: string)
    requires h < 100 && m < 100 && s < 100 && trailers(trailer).Some?
    ensures ReadTime(trailers, ClockText(h, m, s) + trailer)
         == if InRange(h, m, s) then Some(Time(Seconds(h, m, s), trailers(trailer).value)) else None
  {
  }

  lemma StrictDateTimes(trailers: string -> Option<Trailer>, trailer: string)
    requires trailers(trailer).Some?
    ensures ReadsDateTimes(Strict(trailers).dateTime, trailer, trailers(trailer).value)
  {
    forall d: Date, h: nat, m: nat, s: nat | ValidDate(d) && h < 100 && m < 100 && s < 100
      ensures Strict(trailers).dateTime(DateTimeText(d, h, m, s, trailer))
           == if InRange(h, m, s) then Some(DateTime(Meaning(d, h, m, s), trailers(trailer).value)) else None
    {
      DateTimeRead(trailers, d, h, m, s, trailer);
    }
  }

  lemma WithinTheDay(h: nat, m: nat, s: nat)
    ensures InRange(h, m, s) ==> Seconds(h, m, s) % 86400 == Seconds(h, m, s)
  {
  }

  lemma StrictTimes(trailers: string -> Option<Trailer>, trailer: string)
    requires trailers(trailer).Some?
    ensures ReadsTimes(Strict(trailers).time, trailer, trailers(trailer).value)
  {
    forall h: nat, m: nat, s: nat | h < 100 && m < 100 && s < 100
      ensures Strict(trailers).time(ClockText(h, m, s) + trailer)
           == if InRange(h, m, s) then Some(Time(Seconds(h, m, s) % 86400, trailers(trailer).value)) else None
    {
      TimeRead(trailers, h, m, s, trailer);
      WithinTheDay(h, m, s);
    }
  }

  /** The strict parsers are parsers the readers can stand on, and they refuse every overflow: all
      of those the readers read by repairing them. */
  lemma StrictParsersUnderstand(trailers: string -> Option<Trailer>, trailer: string)
    requires trailers(trailer).Some?
    ensures Understand(Strict(trailers), trailer, trailers(trailer).value)
    ensures forall d: Date, h: nat, m: nat, s: nat ::
              ValidDate(d) && h < 100 && m < 100 && s < 100 && !InRange(h, m, s) ==>
                Strict(trailers).dateTime(DateTimeText(d, h, m, s, trailer)).None?
  {
    StrictDateTimes(trailers, trailer);
    StrictTimes(trailers, trailer);
    forall d: Date, h: nat, m: nat, s: nat | ValidDate(d) && h < 100 && m < 100 && s < 100 && !InRange(h, m, s)
      ensures Strict(trailers).dateTime(DateTimeText(d, h, m, s, trailer)).None?
    {
      DateTimeRead(trailers, d, h, m, s, trailer);
    }
  }
}
