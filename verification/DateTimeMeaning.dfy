/** What the tolerant readers mean: midnight plus hours, minutes and seconds, however the camera
    separates or overflows them. */
module DateTimeMeaning {
  import opened Wrappers
  import opened Calendar
  import opened DateTimes

  // ------------------------------------------------------------------ spellings

  /** The texts cameras put the same date and time in. */
  function DateText(d: Date): string
    requires ValidDate(d)
  {
    Pad4(d.year) + "-" + Pad2(d.month) + "-" + Pad2(d.day)
  }

  function ClockText(h: nat, m: nat, s: nat): string
    requires h < 100 && m < 100 && s < 100
  {
    Pad2(h) + ":" + Pad2(m) + ":" + Pad2(s)
  }

  /** A dash for T, a dash after T, and a date alone all read as the T form. */
  lemma DashSpellingsAgree(date: string, time: string)
    requires |date| == 10 && time != "" && IsDigit(time[0])
    ensures Normal(date + "T" + time) == date + "T" + time
    ensures Normal(date + "-" + time) == date + "T" + time
    ensures Normal(date + "T-" + time) == date + "T" + time
    ensures Normal(date) == date + "T00:00:00"
  {
  }

  /** A space for T reads as the T form exactly at the three lengths the code knows, and only when
      it is the one space in the text: every other space becomes a T as well. */
  lemma SpaceSpellingAgreesExactlyWhen(date: string, time: string)
    requires |date| == 10 && time != "" && IsDigit(time[0])
    ensures Normal(date + " " + time) == date + "T" + time
       <==> |time| in {8, 9, 15} && ' ' !in date && ' ' !in time
  {
    var v, t := date + " " + time, date + "T" + time;
    assert v[10] == ' ' && v[11] == time[0] && t[10] == 'T';
    if |time| in {8, 9, 15} {
      var r := SpacesToT(v);
      assert Normal(v) == r;
      assert forall i :: 0 <= i < 10 ==> v[i] == date[i] && t[i] == date[i];
      assert forall i :: 11 <= i < |v| ==> v[i] == time[i - 11] && t[i] == time[i - 11];
      if ' ' in date {
        var i :| 0 <= i < 10 && date[i] == ' ';
        assert r[i] == 'T' && t[i] == ' ';
      } else if ' ' in time {
        var i :| 0 <= i < |time| && time[i] == ' ';
        assert r[i + 11] == 'T' && t[i + 11] == time[i];
      } else {
        assert r == t;
      }
    }
  }

  /** The separator repairs are done in one pass, except for a second dash after the separator. */
  lemma NormalIsFixedPointExactlyWhen(v: string)
    ensures Normal(Normal(v)) == Normal(v) <==> !(|v| > 12 && v[11] == '-' && v[12] == '-')
  {
    var n := Normal(v);
    var dashed := if |v| > 10 && v[10] == '-' then v[..10] + "T" + v[11..] else v;
    assert |dashed| > 11 ==> dashed[11] == v[11];
    if |v| > 12 && v[11] == '-' && v[12] == '-' {
      assert |n| == |v| - 1 && n[11] == '-' && n[10] != '-';
      assert |Normal(n)| == |n| - 1;
    }
  }

  lemma SameNormalSameValue(g: Parsers, v: string, w: string)
    requires Normal(v) == Normal(w)
    ensures DateTimeValue(g, v) == DateTimeValue(g, w)
  {
  }

  /** All spellings are read as the same date and time. */
  lemma SpellingsReadAlike(g: Parsers, date: string, time: string)
    requires |date| == 10 && time != "" && IsDigit(time[0])
    ensures DateTimeValue(g, date + "-" + time) == DateTimeValue(g, date + "T" + time)
    ensures DateTimeValue(g, date + "T-" + time) == DateTimeValue(g, date + "T" + time)
    ensures |time| in {8, 9, 15} && ' ' !in date && ' ' !in time ==>
              DateTimeValue(g, date + " " + time) == DateTimeValue(g, date + "T" + time)
    ensures DateTimeValue(g, date) == DateTimeValue(g, date + "T00:00:00")
  {
    DashSpellingsAgree(date, time);
    SameNormalSameValue(g, date + "-" + time, date + "T" + time);
    SameNormalSameValue(g, date + "T-" + time, date + "T" + time);
    if |time| in {8, 9, 15} && ' ' !in date && ' ' !in time {
      SpaceSpellingAgreesExactlyWhen(date, time);
      SameNormalSameValue(g, date + " " + time, date + "T" + time);
    }
    DateAloneIsMidnight(g, date);
  }

  lemma DateAloneIsMidnight(g: Parsers, date: string)
    requires |date| == 10
    ensures DateTimeValue(g, date) == DateTimeValue(g, date + "T00:00:00")
  {
  }

  // ------------------------------------------------------------------ what is readable stays as it is

  /** None of the separator repairs applies to the text. */
  predicate WellSeparated(v: string) {
    && (|v| > 10 ==> v[10] != '-') && (|v| > 11 ==> v[11] != '-') && |v| != 10
    && (|v| in {19, 20, 26} ==> v[10] != ' ')
  }

  /** The tolerance is conservative: a well separated text the parsers read has exactly the value they
      give it, whatever its shape. */
  lemma ReadableIsRead(g: Parsers, v: string)
    requires WellSeparated(v) && g.dateTime(v).Some?
    ensures DateTimeValue(g, v) == g.dateTime(v)
  {
  }

  /** Of the two parsers tried on a date and time the first that reads it decides. */
  lemma FirstParserDecides(ciso: string -> Option<DateTime>, iso: string -> Option<DateTime>, time: string -> Option<Time>,
                           v: string)
    requires WellSeparated(v)
    ensures var value := DateTimeValue(Parsers(TryParse(ciso, iso), time), v);
            && (ciso(v).Some? ==> value == ciso(v))
            && (ciso(v).None? && iso(v).Some? ==> value == iso(v))
  {
    var g := Parsers(TryParse(ciso, iso), time);
    assert g.dateTime(v) == if ciso(v).Some? then ciso(v) else iso(v);
    if g.dateTime(v).Some? {
      ReadableIsRead(g, v);
    }
  }

  /** And any other text has the value the parsers give its repaired spelling, if they read that: a
      dash for T, a dash after T, a date alone, and a space for T at the three lengths. */
  lemma RepairedSpellingIsRead(g: Parsers, date: string, time: string)
    requires |date| == 10 && time != "" && IsDigit(time[0])
    ensures g.dateTime(date + "T" + time).Some? ==>
              && DateTimeValue(g, date + "T" + time) == g.dateTime(date + "T" + time)
              && DateTimeValue(g, date + "-" + time) == g.dateTime(date + "T" + time)
              && DateTimeValue(g, date + "T-" + time) == g.dateTime(date + "T" + time)
              && (|time| in {8, 9, 15} && ' ' !in date && ' ' !in time ==>
                    DateTimeValue(g, date + " " + time) == g.dateTime(date + "T" + time))
    ensures g.dateTime(date + "T00:00:00").Some? ==> DateTimeValue(g, date) == g.dateTime(date + "T00:00:00")
  {
    SpellingsReadAlike(g, date, time);
    assert (date + "T" + time)[10] == 'T' && (date + "T" + time)[11] == time[0];
    assert (date + "T00:00:00")[10] == 'T' && (date + "T00:00:00")[11] == '0';
    if g.dateTime(date + "T" + time).Some? {
      ReadableIsRead(g, date + "T" + time);
    }
    if g.dateTime(date + "T00:00:00").Some? {
      ReadableIsRead(g, date + "T00:00:00");
    }
  }

  /** The same of times. */
  lemma ReadableTimeIsRead(g: Parsers, value: string)
    requires g.time(value).Some?
    ensures TimeValue(g, value) == g.time(value)
  {
  }

  /** The fields of hh:mm:ss are two characters each, at 0, 3 and 6. */
  predicate FieldsAreNumbers(time: string) {
    PyInt(Slice(time, 0, 2)).Some? && PyInt(Slice(time, 3, 5)).Some? && PyInt(Slice(time, 6, 8)).Some?
  }

  /** A text the parsers do not read is refused when its fields are no numbers, as they are not in a
      time of six characters or less. */
  lemma UnreadableIsRefused(g: Parsers, date: string, time: string)
    requires 'T' !in date && WellSeparated(date + "T" + time) && g.dateTime(date + "T" + time).None?
    requires |time| <= 6 || !FieldsAreNumbers(time)
    ensures DateTimeValue(g, date + "T" + time).None?
    ensures g.time(time).None? ==> TimeValue(g, time).None?
  {
    PartitionAtT(date, time);
  }

  /** What int() makes of a field of two characters: two digits, or one with a space on either side
      or a sign before it. Nothing else is a number. */
  lemma FieldIsNumberExactlyWhen(field: string)
    requires |field| == 2
    ensures var a, b := field[0], field[1];
            && (IsDigit(a) && IsDigit(b) ==> PyInt(field) == Some(10 * DigitValue(a) + DigitValue(b)))
            && (IsDigit(a) && IsSpace(b) ==> PyInt(field) == Some(DigitValue(a)))
            && (IsDigit(b) && (IsSpace(a) || a == '+') ==> PyInt(field) == Some(DigitValue(b)))
            && (IsDigit(b) && a == '-' ==> PyInt(field) == Some(0 - DigitValue(b)))
            && (PyInt(field).Some? ==> (IsDigit(a) && (IsDigit(b) || IsSpace(b)))
                                       || (IsDigit(b) && (IsSpace(a) || a == '+' || a == '-')))
  {
  }

  // ------------------------------------------------------------------ overflow

  lemma PyIntPad2(n: nat)
    requires n < 100
    ensures PyInt(Pad2(n)) == Some(n)
  {
  }

  /** The repaired fields are in range, and with the offset they make the same number of seconds;
      the trailer is kept. */
  lemma RepairPreservesSeconds(h: nat, m: nat, s: nat, trailer: string)
    requires h < 100 && m < 100 && s < 100
    ensures var fixed := FixedTime(ClockText(h, m, s) + trailer);
            var h', m', s' := AtMost(h, 23), AtMost(m, 59), AtMost(s, 59);
            && fixed.Some?
            && 0 <= h' <= 23 && 0 <= m' <= 59 && 0 <= s' <= 59
            && fixed.value.0 == ClockText(h', m', s') + trailer
            && 3600 * h' + 60 * m' + s' + OffsetSeconds(fixed.value.1) == 3600 * h + 60 * m + s
  {
    var time := ClockText(h, m, s) + trailer;
    assert Slice(time, 0, 2) == Pad2(h) && Slice(time, 3, 5) == Pad2(m) && Slice(time, 6, 8) == Pad2(s);
    PyIntPad2(h);
    PyIntPad2(m);
    PyIntPad2(s);
    assert (if |time| <= 8 then "" else time[8..]) == trailer;
    ExcessAdds(h, m, s);
  }

  /** timedelta of hours, minutes and seconds, some of which may be missing. */
  lemma OffsetOf(h: int, m: int, s: int)
    ensures OffsetSeconds(map[Hours := h, Minutes := m, SecondsUnit := s]) == 3600 * h + 60 * m + s
    ensures OffsetSeconds(map[Minutes := m]) == 60 * m && OffsetSeconds(map[]) == 0
  {
  }

  lemma ExcessAdds(h: nat, m: nat, s: nat)
    ensures OffsetSeconds(Excess(Hours, h, 23) + Excess(Minutes, m, 59) + Excess(SecondsUnit, s, 59))
         == Seconds(h - AtMost(h, 23), m - AtMost(m, 59), s - AtMost(s, 59))
  {
  }

  // ------------------------------------------------------------------ the parsers underneath

  /** Midnight of the date plus h:m:s. */
  function Meaning(d: Date, h: nat, m: nat, s: nat): int
    requires ValidDate(d)
  {
    86400 * DayNumber(d) + Seconds(h, m, s)
  }

  predicate InRange(h: nat, m: nat, s: nat) {
    h <= 23 && m <= 59 && s <= 59
  }

  /** The text of a date and time, as sections 3.2.7 and 3.2.8 of XML Schema Part 2 have it but for
      the range of the fields. */
  function DateTimeText(d: Date, h: nat, m: nat, s: nat, trailer: string): string
    requires ValidDate(d) && h < 100 && m < 100 && s < 100
  {
    DateText(d) + "T" + (ClockText(h, m, s) + trailer)
  }

  /** With this trailer the parsers read every text whose fields are in range, and whatever else
      they read of that shape (24:00:00, say) they read as the same sum. */
  ghost predicate Understand(g: Parsers, trailer: string, means: Trailer) {
    ReadsDateTimes(g.dateTime, trailer, means) && ReadsTimes(g.time, trailer, means)
  }

  ghost predicate ReadsDateTimes(parse: string -> Option<DateTime>, trailer: string, means: Trailer) {
    forall d: Date, h: nat, m: nat, s: nat :: ValidDate(d) && h < 100 && m < 100 && s < 100 ==>
      var read := parse(DateTimeText(d, h, m, s, trailer));
      && (InRange(h, m, s) ==> read.Some?)
      && (read.Some? ==> read.value == DateTime(Meaning(d, h, m, s), means))
  }

  /** Whatever the parser reads of this shape, it reads as the sum. */
  ghost predicate NeverMisreads(parse: string -> Option<DateTime>, trailer: string, means: Trailer) {
    forall d: Date, h: nat, m: nat, s: nat :: ValidDate(d) && h < 100 && m < 100 && s < 100 ==>
      var read := parse(DateTimeText(d, h, m, s, trailer));
      read.Some? ==> read.value == DateTime(Meaning(d, h, m, s), means)
  }

  ghost predicate ReadsTimes(parse: string -> Option<Time>, trailer: string, means: Trailer) {
    forall h: nat, m: nat, s: nat :: h < 100 && m < 100 && s < 100 ==>
      var read := parse(ClockText(h, m, s) + trailer);
      && (InRange(h, m, s) ==> read.Some?)
      && (read.Some? ==> read.value == Time(Seconds(h, m, s) % 86400, means))
  }

  /** Two parsers tried one after the other are enough, however they share the work: neither may
      misread, and each text with fields in range is to be read by one of them. */
  lemma EitherParserIsEnough(ciso: string -> Option<DateTime>, iso: string -> Option<DateTime>, time: string -> Option<Time>,
                             trailer: string, means: Trailer)
    requires NeverMisreads(ciso, trailer, means) && NeverMisreads(iso, trailer, means) && ReadsTimes(time, trailer, means)
    requires forall d: Date, h: nat, m: nat, s: nat :: ValidDate(d) && InRange(h, m, s) ==>
               var text := DateTimeText(d, h, m, s, trailer); ciso(text).Some? || iso(text).Some?
    ensures Understand(Parsers(TryParse(ciso, iso), time), trailer, means)
  {
    var g := Parsers(TryParse(ciso, iso), time);
    forall d: Date, h: nat, m: nat, s: nat | ValidDate(d) && h < 100 && m < 100 && s < 100
      ensures var read := g.dateTime(DateTimeText(d, h, m, s, trailer));
              && (InRange(h, m, s) ==> read.Some?)
              && (read.Some? ==> read.value == DateTime(Meaning(d, h, m, s), means))
    {
      var text := DateTimeText(d, h, m, s, trailer);
      assert g.dateTime(text) == if ciso(text).Some? then ciso(text) else iso(text);
    }
  }

  lemma {:induction false} PartitionAtT(date: string, time: string)
    requires 'T' !in date
    ensures PartitionT(date + "T" + time) == (date, time)
    decreases |date|
  {
    var v := date + "T" + time;
    if date == "" {
      assert v == "T" + time;
    } else {
      assert date[0] in date && v[0] == date[0];
      assert [date[0]] + date[1..] == date;
      assert v[1..] == date[1..] + "T" + time;
      PartitionAtT(date[1..], time);
    }
  }

  lemma DateHasNoT(d: Date)
    requires ValidDate(d)
    ensures 'T' !in DateText(d) && |DateText(d)| == 10
  {
  }

  lemma FixedRead(g: Parsers, date: string, fixed: (string, map<Unit, int>), read: DateTime, seconds: int)
    requires g.dateTime(date + "T" + fixed.0) == Some(read) && read.seconds + OffsetSeconds(fixed.1) == seconds
    ensures ReadFixed(g, date, Some(fixed)) == Some(DateTime(seconds, read.trailer))
  {
  }

  lemma RepairedRead(g: Parsers, d: Date, h: nat, m: nat, s: nat, trailer: string, means: Trailer)
    requires ValidDate(d) && h < 100 && m < 100 && s < 100 && Understand(g, trailer, means)
    ensures Repaired(g, DateText(d), ClockText(h, m, s) + trailer) == Some(DateTime(Meaning(d, h, m, s), means))
  {
    RepairPreservesSeconds(h, m, s, trailer);
    var fixed := FixedTime(ClockText(h, m, s) + trailer);
    var read := Understood(g, d, AtMost(h, 23), AtMost(m, 59), AtMost(s, 59), trailer, means);
    FixedRead(g, DateText(d), fixed.value, read, Meaning(d, h, m, s));
  }

  /** What the parsers read from fields in range. */
  ghost function Understood(g: Parsers, d: Date, h: nat, m: nat, s: nat, trailer: string, means: Trailer): (r: DateTime)
    requires ValidDate(d) && InRange(h, m, s) && Understand(g, trailer, means)
    ensures r == DateTime(Meaning(d, h, m, s), means) && g.dateTime(DateTimeText(d, h, m, s, trailer)) == Some(r)
  {
    g.dateTime(DateTimeText(d, h, m, s, trailer)).value
  }

  lemma ReadAsMeaning(g: Parsers, d: Date, h: nat, m: nat, s: nat, trailer: string, means: Trailer)
    requires ValidDate(d) && h < 100 && m < 100 && s < 100 && Understand(g, trailer, means)
    ensures DateTimeValue(g, DateTimeText(d, h, m, s, trailer)) == Some(DateTime(Meaning(d, h, m, s), means))
  {
    var date, time := DateText(d), ClockText(h, m, s) + trailer;
    DateHasNoT(d);
    assert time[0] == Pad2(h)[0];
    DashSpellingsAgree(date, time);
    PartitionAtT(date, time);
    RepairedRead(g, d, h, m, s, trailer, means);
    assert g.dateTime(DateTimeText(d, h, m, s, trailer)).Some? ==>
             g.dateTime(DateTimeText(d, h, m, s, trailer)).value == DateTime(Meaning(d, h, m, s), means);
  }

  /** FastDateTime: for every valid date and every two-digit hour, minute and second, overflowing
      or not, the value is midnight of that date plus h:m:s, with the trailer kept, whether the
      parsers underneath read the text itself or only the repaired one. */
  lemma FastDateTimeIsMidnightPlus(g: Parsers, d: Date, h: nat, m: nat, s: nat, trailer: string, means: Trailer)
    requires ValidDate(d) && h < 100 && m < 100 && s < 100 && Understand(g, trailer, means)
    ensures DateTimeValue(g, DateTimeText(d, h, m, s, trailer))
         == Some(DateTime(86400 * DayNumber(d) + 3600 * h + 60 * m + s, means))
  {
    ReadAsMeaning(g, d, h, m, s, trailer, means);
  }

  /** ForgivingTime: for every two-digit hour, minute and second the value is h:m:s within a day,
      with the zone kept, whichever of its two parsers reads it. */
  lemma ForgivingTimeIsTimeOfDay(g: Parsers, h: nat, m: nat, s: nat, trailer: string, means: Trailer)
    requires h < 100 && m < 100 && s < 100 && Understand(g, trailer, means)
    ensures TimeValue(g, ClockText(h, m, s) + trailer) == Some(Time((3600 * h + 60 * m + s) % 86400, means))
  {
    FixedDay();
    ForgivingTimeVia(g, Date(2024, 1, 15), h, m, s, trailer, means);
  }

  lemma FixedDay()
    ensures DateText(Date(2024, 1, 15)) == "2024-01-15"
  {
  }

  /** The day the overflowing time is read on makes no difference. */
  lemma ForgivingTimeVia(g: Parsers, d: Date, h: nat, m: nat, s: nat, trailer: string, means: Trailer)
    requires ValidDate(d) && DateText(d) == "2024-01-15"
    requires h < 100 && m < 100 && s < 100 && Understand(g, trailer, means)
    ensures TimeValue(g, ClockText(h, m, s) + trailer) == Some(Time(Seconds(h, m, s) % 86400, means))
  {
    RepairedRead(g, d, h, m, s, trailer, means);
    WholeDaysVanish(DayNumber(d), Seconds(h, m, s));
    TimeIs(g, ClockText(h, m, s) + trailer, Time(Seconds(h, m, s) % 86400, means));
  }

  lemma TimeIs(g: Parsers, value: string, t: Time)
    requires g.time(value).Some? ==> g.time(value).value == t
    requires var r := Repaired(g, "2024-01-15", value); r.Some? && Time(r.value.seconds % 86400, r.value.trailer) == t
    ensures TimeValue(g, value) == Some(t)
  {
  }

  lemma WholeDaysVanish(days: nat, seconds: nat)
    ensures (86400 * days + seconds) % 86400 == seconds % 86400
  {
  }
}
