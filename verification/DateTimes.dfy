/** Tolerant reading of dates and times: onvif/types.py, for any parsers underneath. None is a
    ValueError. */
module DateTimes {
  import opened Wrappers

  // ------------------------------------------------------------------ fields of digits

  predicate IsDigit(c: char) {
    '0' <= c <= '9'
  }

  function Digit(n: nat): char
    requires n < 10
  {
    ('0' as int + n) as char
  }

  function DigitValue(c: char): nat
    requires IsDigit(c)
  {
    c as int - '0' as int
  }

  /** f"{n:02d}" of a number of at most two digits. */
  function Pad2(n: int): string
    requires -10 < n < 100
  {
    if n < 0 then ['-', Digit(-n)] else [Digit(n / 10), Digit(n % 10)]
  }

  function Pad4(n: nat): string
    requires n < 10000
  {
    Pad2(n / 100) + Pad2(n % 100)
  }

  predicate IsSpace(c: char) {
    c == ' ' || '\t' <= c <= '\r'
  }

  /** int() of at most two characters: surrounding space and a sign are allowed. */
  function PyInt(s: string): (r: Option<int>)
    requires |s| <= 2
    ensures r.Some? ==> -10 < r.value < 100
  {
    if |s| == 1 && IsDigit(s[0]) then Some(DigitValue(s[0]))
    else if |s| != 2 then None
    else if IsDigit(s[0]) && IsDigit(s[1]) then Some(10 * DigitValue(s[0]) + DigitValue(s[1]))
    else if IsDigit(s[0]) && IsSpace(s[1]) then Some(DigitValue(s[0]))
    else if (IsSpace(s[0]) || s[0] == '+') && IsDigit(s[1]) then Some(DigitValue(s[1]))
    else if s[0] == '-' && IsDigit(s[1]) then Some(0 - DigitValue(s[1]))
    else None
  }

  /** s[i:j] */
  function Slice(s: string, i: nat, j: nat): (r: string)
    requires i <= j
    ensures |r| <= j - i
  {
    if |s| <= i then "" else if |s| <= j then s[i..] else s[i..j]
  }

  // ------------------------------------------------------------------ the parsers underneath

  /** What follows the seconds: a fraction, in microseconds, and an offset from UTC, in minutes. */
  datatype Trailer = Trailer(micros: nat, offset: Option<int>)

  /** A point in time: seconds since 0001-01-01T00:00:00 by its own clock, and the trailer. */
  datatype DateTime = DateTime(seconds: int, trailer: Trailer)

  datatype Time = Time(seconds: int, trailer: Trailer)

  /** The parsers underneath: ciso8601 or else isodate on a date and time, isodate on a time. */
  datatype Parsers = Parsers(dateTime: string -> Option<DateTime>, time: string -> Option<Time>)

  /** `_try_parse_datetime`: ciso8601, or else isodate. */
  function TryParse(ciso: string -> Option<DateTime>, iso: string -> Option<DateTime>): string -> Option<DateTime> {
    (value: string) => if ciso(value).Some? then ciso(value) else iso(value)
  }

  function Seconds(h: int, m: int, s: int): int {
    3600 * h + 60 * m + s
  }

  // ------------------------------------------------------------------ overflow repair

  /** The keywords of timedelta the offset dict uses. */
  datatype Unit = Hours | Minutes | SecondsUnit

  /** timedelta(**offset) in seconds */
  function OffsetSeconds(offset: map<Unit, int>): int {
    Seconds(if Hours in offset then offset[Hours] else 0,
            if Minutes in offset then offset[Minutes] else 0,
            if SecondsUnit in offset then offset[SecondsUnit] else 0)
  }

  function AtMost(n: int, limit: int): int {
    if n > limit then limit else n
  }

  function Excess(key: Unit, n: int, limit: int): map<Unit, int> {
    if n > limit then map[key := n - limit] else map[]
  }

  function FixedTime(time: string): Option<(string, map<Unit, int>)> {
    var h, m, s := PyInt(Slice(time, 0, 2)), PyInt(Slice(time, 3, 5)), PyInt(Slice(time, 6, 8));
    if h.None? || m.None? || s.None? then None
    else Some((Pad2(AtMost(h.value, 23)) + ":" + Pad2(AtMost(m.value, 59)) + ":" + Pad2(AtMost(s.value, 59))
               + (if |time| <= 8 then "" else time[8..]),
               Excess(Hours, h.value, 23) + Excess(Minutes, m.value, 59) + Excess(SecondsUnit, s.value, 59)))
  }

  /** `_try_fix_time_overflow` */
  method TryFixTimeOverflow(time: string) returns (r: Option<(string, map<Unit, int>)>)
    ensures r == FixedTime(time)
  {
    var offset: map<Unit, int> := map[];
    var hours := PyInt(Slice(time, 0, 2));
    if hours.None? {
      return None;
    }
    var hour := hours.value;
    if hour > 23 {
      offset := offset[Hours := hour - 23];
      hour := 23;
    }
    var minutes := PyInt(Slice(time, 3, 5));
    if minutes.None? {
      return None;
    }
    var minute := minutes.value;
    if minute > 59 {
      offset := offset[Minutes := minute - 59];
      minute := 59;
    }
    var seconds := PyInt(Slice(time, 6, 8));
    if seconds.None? {
      return None;
    }
    var second := seconds.value;
    if second > 59 {
      offset := offset[SecondsUnit := second - 59];
      second := 59;
    }
    var trailer := if |time| <= 8 then "" else time[8..];
    assert offset == Excess(Hours, hours.value, 23) + Excess(Minutes, minutes.value, 59) + Excess(SecondsUnit, seconds.value, 59);
    r := Some((Pad2(hour) + ":" + Pad2(minute) + ":" + Pad2(second) + trailer, offset));
  }

  // ------------------------------------------------------------------ FastDateTime

  /** "T".join(value.split(" ")) */
  function SpacesToT(s: string): (r: string)
    ensures |r| == |s| && forall i :: 0 <= i < |s| ==> r[i] == if s[i] == ' ' then 'T' else s[i]
  {
    seq(|s|, i requires 0 <= i < |s| => if s[i] == ' ' then 'T' else s[i])
  }

  /** The value after the separator repairs. */
  function Normal(value: string): string {
    var dashed := if |value| > 10 && value[10] == '-' then value[..10] + "T" + value[11..] else value;
    var single := if |dashed| > 11 && dashed[11] == '-' then dashed[..11] + dashed[12..] else dashed;
    if |single| == 10 then single + "T00:00:00"
    else if (|single| == 19 || |single| == 20 || |single| == 26) && single[10] == ' ' then SpacesToT(single)
    else single
  }

  /** str.partition("T") */
  function PartitionT(s: string): (string, string) {
    if s == "" then ("", "")
    else if s[0] == 'T' then ("", s[1..])
    else ([s[0]] + PartitionT(s[1..]).0, PartitionT(s[1..]).1)
  }

  /** `dt + timedelta(**offset)` if the text can be read. */
  function ReadAndShift(g: Parsers, v: string, offset: map<Unit, int>): Option<DateTime> {
    var read := g.dateTime(v);
    if read.None? then None else Some(DateTime(read.value.seconds + OffsetSeconds(offset), read.value.trailer))
  }

  /** A date and a time with its overflow repaired, read again. */
  function Repaired(g: Parsers, date: string, time: string): Option<DateTime> {
    ReadFixed(g, date, FixedTime(time))
  }

  function ReadFixed(g: Parsers, date: string, fixed: Option<(string, map<Unit, int>)>): Option<DateTime> {
    if fixed.None? then None else ReadAndShift(g, date + "T" + fixed.value.0, fixed.value.1)
  }

  method RepairOverflow(g: Parsers, date: string, time: string) returns (r: Option<DateTime>)
    ensures r == Repaired(g, date, time)
  {
    var fixed := TryFixTimeOverflow(time);
    if fixed.None? {
      return None;
    }
    r := ReadAndShift(g, date + "T" + fixed.value.0, fixed.value.1);
  }

  function DateTimeValue(g: Parsers, value: string): Option<DateTime> {
    var v := Normal(value);
    if g.dateTime(v).Some? then g.dateTime(v) else Repaired(g, PartitionT(v).0, PartitionT(v).1)
  }

  /** The first part of FastDateTime.pythonvalue */
  method RepairSeparators(xmlvalue: string) returns (value: string)
    ensures value == Normal(xmlvalue)
  {
    value := xmlvalue;
    if |value| > 10 && value[10] == '-' {
      value := value[..10] + "T" + value[11..];
    }
    if |value| > 11 && value[11] == '-' {
      value := value[..11] + value[12..];
    }
    if |value| == 10 {
      value := value + "T00:00:00";
    } else if (|value| == 19 || |value| == 20 || |value| == 26) && value[10] == ' ' {
      value := SpacesToT(value);
    }
  }

  /** FastDateTime.pythonvalue, whitespace already collapsed */
  method FastDateTime(g: Parsers, xmlvalue: string) returns (r: Option<DateTime>)
    ensures r == DateTimeValue(g, xmlvalue)
  {
    var value := RepairSeparators(xmlvalue);
    r := g.dateTime(value);
    if r.Some? {
      return;
    }
    var (date, time) := PartitionT(value);
    r := RepairOverflow(g, date, time);
  }

  // ------------------------------------------------------------------ ForgivingTime

  function TimeValue(g: Parsers, value: string): Option<Time> {
    if g.time(value).Some? then g.time(value)
    else
      var repaired := Repaired(g, "2024-01-15", value);
      if repaired.None? then None else Some(Time(repaired.value.seconds % 86400, repaired.value.trailer))
  }

  /** ForgivingTime.pythonvalue, whitespace already collapsed */
  method ForgivingTime(g: Parsers, value: string) returns (r: Option<Time>)
    ensures r == TimeValue(g, value)
  {
    r := g.time(value);
    if r.Some? {
      return;
    }
    var repaired := RepairOverflow(g, "2024-01-15", value);
    if repaired.Some? {
      r := Some(Time(repaired.value.seconds % 86400, repaired.value.trailer));
    }
  }
}
