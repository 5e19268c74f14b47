/**
 * The date checker: a string is matched against the `full-date` or the
 * `date-time` production of RFC 3339, section 5.6, field by field with
 * `split`, `parseInt` and `length`, without checking the calendar.
 */
module DateValidator {
  import opened Outcomes
  import opened Text
  import opened JsonValues
  import opened Results
  import opened Configuration
  import opened PushErrors

  /**
   * A field of exactly two code units whose `parseInt` value lies in
   * `[lo, hi)`; a field `parseInt` reads as NaN fails every comparison.
   */
  predicate TwoDigitField(t: string, lo: int, hi: int) {
    Utf16Length(t) == 2 && ParseInt(t).Some? && lo <= ParseInt(t).value < hi
  }

  /** Only the length of the year is looked at. */
  predicate DateFullYear(t: string) { Utf16Length(t) == 4 }
  predicate DateMonth(t: string) { TwoDigitField(t, 1, 13) }
  predicate DateMDay(t: string) { TwoDigitField(t, 1, 32) }
  predicate TimeHour(t: string) { TwoDigitField(t, 0, 24) }
  predicate TimeMinute(t: string) { TwoDigitField(t, 0, 60) }
  /** Up to 60, for a leap second. */
  predicate TimeSecond(t: string) { TwoDigitField(t, 0, 61) }

  /** A missing fraction is fine; a present one is a `.` and at least one more code unit. */
  predicate TimeSecFrac(fraction: Option<string>) {
    match fraction
    case None => true
    case Some(f) => |f| > 0 && f[0] == '.' && Utf16Length(f) >= 2
  }

  /** `+hh:mm` or `-hh:mm`. */
  predicate TimeNumOffset(t: string) {
    |t| > 0 && (t[0] == '+' || t[0] == '-')
    && var params := Split(t[1..], ':');
       |params| == 2 && TimeHour(params[0]) && TimeMinute(params[1])
  }

  /** `Z`, `z` or a numeric offset; after a leading `Z` or `z` nothing else is looked at. */
  predicate TimeOffset(t: string) {
    (|t| > 0 && (t[0] == 'Z' || t[0] == 'z')) || TimeNumOffset(t)
  }

  /** The seconds field cut at its first `.`, and the fraction from that `.` on. */
  function SecondAndFraction(field: string): (r: (string, Option<string>))
    ensures r.1.None? ==> r.0 == field && '.' !in field
    ensures r.1.Some? ==> r.0 + r.1.value == field && '.' !in r.0 && |r.1.value| > 0 && r.1.value[0] == '.'
  {
    match FindChar(field, '.')
    case None => (field, None)
    case Some(i) =>
      assert field[..i] + field[i..] == field;
      (field[..i], Some(field[i..]))
  }

  /** `hh:mm:ss` with an optional fraction on the seconds. */
  predicate PartialTime(t: string) {
    var params := Split(t, ':');
    |params| == 3
    && var (second, fraction) := SecondAndFraction(params[2]);
       TimeHour(params[0]) && TimeMinute(params[1]) && TimeSecond(second) && TimeSecFrac(fraction)
  }

  /** `yyyy-mm-dd`. */
  predicate FullDate(t: string) {
    var params := Split(t, '-');
    |params| == 3 && DateFullYear(params[0]) && DateMonth(params[1]) && DateMDay(params[2])
  }

  /** The characters an offset can start with, in the order they are tried. */
  const OffsetStarts: seq<char> := ['Z', 'z', '+', '-']

  /**
   * `splitAtEither(input, separators)`: cut the input before the first
   * occurrence of the first separator, in list order, that occurs at all.
   * Nothing when none occurs.
   */
  function SplitAtEither(input: string, separators: seq<char>): (r: Option<(string, string)>)
    ensures r.None? <==> forall c :: c in separators ==> c !in input
    ensures r.Some? ==> r.value.0 + r.value.1 == input && |r.value.1| > 0
                        && r.value.1[0] in separators && r.value.1[0] !in r.value.0
    ensures r.Some? ==> exists j :: 0 <= j < |separators| && separators[j] == r.value.1[0]
                          && forall k :: 0 <= k < j ==> separators[k] !in input
  {
    if |separators| == 0 then None
    else match FindChar(input, separators[0])
      case Some(i) =>
        assert input[..i] + input[i..] == input && input[i..][0] == separators[0];
        assert separators[0] in separators && input[i] in input;
        Some((input[..i], input[i..]))
      case None =>
        var r := SplitAtEither(input, separators[1..]);
        assert forall j :: 1 <= j < |separators| ==> separators[j] == separators[1..][j - 1];
        assert r.Some? ==> (exists j :: 1 <= j < |separators| && separators[j] == r.value.1[0]
                              && forall k :: 0 <= k < j ==> separators[k] !in input);
        r
  }

  /** The same search, written as the loop over the separators that the checker runs. */
  method SplitAtEitherLoop(input: string, separators: seq<char>) returns (r: Option<(string, string)>)
    ensures r == SplitAtEither(input, separators)
  {
    var i := 0;
    while i < |separators|
      invariant 0 <= i <= |separators|
      invariant SplitAtEither(input, separators) == SplitAtEither(input, separators[i..])
    {
      var index := FindChar(input, separators[i]);
      if index.Some? {
        return Some((input[..index.value], input[index.value..]));
      }
      assert separators[i..][1..] == separators[i + 1..];
      i := i + 1;
    }
    return None;
  }

  /** A partial time immediately followed by an offset. */
  predicate FullTime(t: string) {
    match SplitAtEither(t, OffsetStarts)
    case None => false
    case Some((before, after)) => PartialTime(before) && TimeOffset(after)
  }

  /** A full date and a full time around a `T`, or around a `t` when there is no `T`. */
  predicate DateTime(t: string) {
    var params := if FindChar(t, 'T').Some? then Split(t, 'T') else Split(t, 't');
    |params| == 2 && FullDate(params[0]) && FullTime(params[1])
  }

  /** The production the schema's format selects: `date` a full date, anything else a date-time. */
  predicate CorrectFormat(test: string, schema: Json) {
    if Get(schema, "format") == JStr("date") then FullDate(test) else DateTime(test)
  }

  /**
   * `validateDate(test, schema, spec, config, trace)`: one DATE_FORMAT error
   * with the node's trace when the string does not fit the production and the
   * ignore hook keeps the error.
   */
  function ValidateDate(ctx: Context, test: string, schema: Json, trace: Trace): (r: seq<ValidationError>)
    ensures r == [] || r == [DateFormat(trace)]
    ensures r == [] <==> CorrectFormat(test, schema) || Ignored(ctx, DateFormat(trace), JStr(test), schema)
  {
    Pushed(ctx, !CorrectFormat(test, schema), DateFormat(trace), JStr(test), schema)
  }

  /** Two decimal digits, as RFC 3339 writes every field but the year. */
  predicate TwoDigits(t: string) {
    |t| == 2 && IsDigit(t[0]) && IsDigit(t[1])
  }

  function TwoDigitValue(t: string): nat
    requires TwoDigits(t)
  {
    10 * DigitValue(t[0]) + DigitValue(t[1])
  }

  /** Two digits are two code units, and `parseInt` reads them as their value, leading zero and all. */
  lemma TwoDigitsField(t: string)
    requires TwoDigits(t)
    ensures Utf16Length(t) == 2 && ParseInt(t) == Some(TwoDigitValue(t))
    ensures forall c :: c in t ==> IsDigit(c)
  {
    assert t == [t[0], t[1]];
    assert t[1..] == [t[1]];
    assert TrimStart(t) == t by { assert !IsJsWhitespace(t[0]); }
    assert DigitPrefix(t, false) == t;
    assert DecimalValue(t) == TwoDigitValue(t) by {
      assert t[..1] == [t[0]];
      assert [t[0]][..0] == [];
      assert DecimalValue([t[0]]) == 10 * DecimalValue([]) + DigitValue(t[0]);
    }
  }

  /** A two-digit field passes a range check exactly when its value is in the range. */
  lemma TwoDigitsRange(t: string, lo: int, hi: int)
    requires TwoDigits(t)
    ensures TwoDigitField(t, lo, hi) <==> lo <= TwoDigitValue(t) < hi
    ensures forall c :: c in t ==> IsDigit(c)
  {
    TwoDigitsField(t);
    var v := TwoDigitValue(t);
    assert ParseInt(t) == Some(v) && Utf16Length(t) == 2;
    assert TwoDigitField(t, lo, hi) == (lo <= v < hi);
  }

  /** `yyyy-mm-dd`, with whatever the year is. */
  function DateText(year: string, month: string, day: string): string {
    year + "-" + month + "-" + day
  }

  /**
   * A date written the RFC 3339 way is accepted exactly when its year has
   * four code units, its month is 1 to 12 and its day 1 to 31: there is no
   * calendar check, and the year's characters are not looked at.
   */
  lemma FullDateText(year: string, month: string, day: string)
    requires '-' !in year && TwoDigits(month) && TwoDigits(day)
    ensures FullDate(DateText(year, month, day)) <==>
              Utf16Length(year) == 4 && 1 <= TwoDigitValue(month) <= 12 && 1 <= TwoDigitValue(day) <= 31
  {
    TwoDigitsRange(month, 1, 13);
    TwoDigitsRange(day, 1, 32);
    FullDateFields(year, month, day);
  }

  /** Three pieces free of `-` joined by `-` are checked as year, month and day. */
  lemma FullDateFields(year: string, month: string, day: string)
    requires '-' !in year && '-' !in month && '-' !in day
    ensures FullDate(DateText(year, month, day)) <==> DateFullYear(year) && DateMonth(month) && DateMDay(day)
  {
    assert DateText(year, month, day) == year + ['-'] + month + ['-'] + day;
    SplitThree(year, month, day, '-');
  }

  /** `hh:mm:ss`, followed by `.` and the fraction when there is one. */
  function TimeText(hour: string, minute: string, second: string, fraction: string): string {
    hour + ":" + minute + ":" + second + (if |fraction| == 0 then "" else "." + fraction)
  }

  /**
   * A partial time written the RFC 3339 way is accepted exactly when the hour
   * is below 24, the minute below 60 and the second at most 60; what follows
   * the `.` is not looked at.
   */
  lemma PartialTimeText(hour: string, minute: string, second: string, fraction: string)
    requires TwoDigits(hour) && TwoDigits(minute) && TwoDigits(second) && ':' !in fraction
    ensures PartialTime(TimeText(hour, minute, second, fraction)) <==>
              TwoDigitValue(hour) < 24 && TwoDigitValue(minute) < 60 && TwoDigitValue(second) <= 60
  {
    var tail: string := if |fraction| == 0 then "" else "." + fraction;
    assert Split(TimeText(hour, minute, second, fraction), ':') == [hour, minute, second + tail] by {
      assert ':' !in tail;
      assert hour == [hour[0], hour[1]] && minute == [minute[0], minute[1]] && second == [second[0], second[1]];
      assert TimeText(hour, minute, second, fraction) == hour + [':'] + minute + [':'] + (second + tail);
      SplitThree(hour, minute, second + tail, ':');
    }
    TwoDigitsRange(hour, 0, 24);
    TwoDigitsRange(minute, 0, 60);
    TwoDigitsRange(second, 0, 61);
    SecondsWithFraction(second, fraction);
  }

  /** Two-digit seconds followed by an optional fraction are cut back into the two, and the fraction passes. */
  lemma SecondsWithFraction(second: string, fraction: string)
    requires TwoDigits(second)
    ensures var r := SecondAndFraction(second + (if |fraction| == 0 then "" else "." + fraction));
      r.0 == second && TimeSecFrac(r.1)
  {
    assert second == [second[0], second[1]];
    if |fraction| == 0 {
      assert second + "" == second;
    } else {
      var tail := "." + fraction;
      FindCharAt(second, '.', fraction);
      assert second + tail == second + ['.'] + fraction;
      assert Utf16Length(tail) >= |tail| >= 2;
    }
  }

  /** The offset part of a date-time: `Z`, or hours and minutes ahead of or behind UTC. */
  datatype Offset = Zulu | Ahead(hours: string, minutes: string) | Behind(hours: string, minutes: string)

  /** The hours and minutes are two digits each. */
  predicate Writable(o: Offset) {
    o.Zulu? || (TwoDigits(o.hours) && TwoDigits(o.minutes))
  }

  function OffsetText(o: Offset): string {
    match o
    case Zulu => "Z"
    case Ahead(h, m) => "+" + h + ":" + m
    case Behind(h, m) => "-" + h + ":" + m
  }

  /** An offset written the RFC 3339 way is accepted exactly when it is `Z` or its fields are in range. */
  lemma TimeOffsetText(o: Offset)
    requires Writable(o)
    ensures TimeOffset(OffsetText(o)) <==>
              o.Zulu? || (TwoDigitValue(o.hours) < 24 && TwoDigitValue(o.minutes) < 60)
  {
    match o
    case Zulu =>
    case Ahead(h, m) => NumOffsetText('+', h, m);
    case Behind(h, m) => NumOffsetText('-', h, m);
  }

  /** A signed `hh:mm` offset is accepted exactly when its fields are in range. */
  lemma NumOffsetText(sign: char, hours: string, minutes: string)
    requires sign == '+' || sign == '-'
    requires TwoDigits(hours) && TwoDigits(minutes)
    ensures TimeOffset([sign] + hours + ":" + minutes) <==> TwoDigitValue(hours) < 24 && TwoDigitValue(minutes) < 60
  {
    var t := [sign] + hours + ":" + minutes;
    assert Split(t[1..], ':') == [hours, minutes] by {
      assert t[1..] == hours + [':'] + minutes;
      assert hours == [hours[0], hours[1]] && minutes == [minutes[0], minutes[1]];
      SplitTwo(hours, minutes, ':');
    }
    assert t[0] == sign;
    assert TimeOffset(t) == (TimeHour(hours) && TimeMinute(minutes));
    TwoDigitsRange(hours, 0, 24);
    TwoDigitsRange(minutes, 0, 60);
  }

  /**
   * When the separators before the `k`-th do not occur and the `k`-th first
   * occurs at `p`, the input is cut at `p`.
   */
  lemma {:induction false} SplitAtEitherAt(input: string, separators: seq<char>, k: nat, p: nat)
    requires k < |separators| && FindChar(input, separators[k]) == Some(p)
    requires forall j :: 0 <= j < k ==> separators[j] !in input
    ensures SplitAtEither(input, separators) == Some((input[..p], input[p..]))
    decreases k
  {
    if k > 0 {
      assert separators[0] !in input;
      assert separators[1..][k - 1] == separators[k];
      SplitAtEitherAt(input, separators[1..], k - 1, p);
    }
  }

  /** The characters of a written partial time: digits, `:` and `.`. */
  lemma TimeTextCharacters(hour: string, minute: string, second: string, fraction: string)
    requires TwoDigits(hour) && TwoDigits(minute) && TwoDigits(second)
    requires forall c :: c in fraction ==> IsDigit(c)
    ensures forall c :: c in TimeText(hour, minute, second, fraction) ==> IsDigit(c) || c == ':' || c == '.'
  {
    assert hour == [hour[0], hour[1]] && minute == [minute[0], minute[1]] && second == [second[0], second[1]];
  }

  /** Text free of offset characters followed by a written offset is cut right before the offset. */
  lemma OffsetFound(time: string, o: Offset)
    requires Writable(o)
    requires forall c :: c in time ==> IsDigit(c) || c == ':' || c == '.'
    ensures SplitAtEither(time + OffsetText(o), OffsetStarts) == Some((time, OffsetText(o)))
  {
    var offset := OffsetText(o);
    var input := time + offset;
    assert OffsetStarts == ['Z', 'z', '+', '-'];
    assert input[..|time|] == time && input[|time|..] == offset;
    assert 'Z' !in time && 'z' !in time && '+' !in time && '-' !in time;
    match o
    case Zulu =>
      FindCharAt(time, 'Z', "");
      assert input == time + ['Z'] + "";
      SplitAtEitherAt(input, OffsetStarts, 0, |time|);
    case Ahead(h, m) =>
      var rest := h + ":" + m;
      assert h == [h[0], h[1]] && m == [m[0], m[1]];
      assert 'Z' !in rest && 'z' !in rest;
      assert input == time + ['+'] + rest;
      FindCharAt(time, '+', rest);
      SplitAtEitherAt(input, OffsetStarts, 2, |time|);
    case Behind(h, m) =>
      var rest := h + ":" + m;
      assert h == [h[0], h[1]] && m == [m[0], m[1]];
      assert 'Z' !in rest && 'z' !in rest && '+' !in rest;
      assert input == time + ['-'] + rest;
      FindCharAt(time, '-', rest);
      SplitAtEitherAt(input, OffsetStarts, 3, |time|);
  }

  /**
   * A written partial time followed by a written offset is accepted exactly
   * when both parts are in range: the offset is found whichever of `Z`, `+`
   * and `-` starts it.
   */
  lemma FullTimeText(hour: string, minute: string, second: string, fraction: string, o: Offset)
    requires TwoDigits(hour) && TwoDigits(minute) && TwoDigits(second) && Writable(o)
    requires forall c :: c in fraction ==> IsDigit(c)
    ensures FullTime(TimeText(hour, minute, second, fraction) + OffsetText(o)) <==>
              TwoDigitValue(hour) < 24 && TwoDigitValue(minute) < 60 && TwoDigitValue(second) <= 60
              && (o.Zulu? || (TwoDigitValue(o.hours) < 24 && TwoDigitValue(o.minutes) < 60))
  {
    var time := TimeText(hour, minute, second, fraction);
    assert SplitAtEither(time + OffsetText(o), OffsetStarts) == Some((time, OffsetText(o))) by {
      TimeTextCharacters(hour, minute, second, fraction);
      OffsetFound(time, o);
    }
    PartialTimeText(hour, minute, second, fraction);
    TimeOffsetText(o);
  }

  /** A time with no offset is never a full time. */
  lemma MissingOffset(hour: string, minute: string, second: string, fraction: string)
    requires TwoDigits(hour) && TwoDigits(minute) && TwoDigits(second)
    requires forall c :: c in fraction ==> IsDigit(c)
    ensures !FullTime(TimeText(hour, minute, second, fraction))
  {
    var time := TimeText(hour, minute, second, fraction);
    assert SplitAtEither(time, OffsetStarts).None? by {
      TimeTextCharacters(hour, minute, second, fraction);
      assert 'Z' !in time && 'z' !in time && '+' !in time && '-' !in time;
      assert OffsetStarts == ['Z', 'z', '+', '-'];
    }
  }

  /** A written date and a time around `T` or `t` are the two pieces a date-time is cut into. */
  lemma DateTimeParts(year: string, month: string, day: string, sep: char, time: string)
    requires sep == 'T' || sep == 't'
    requires '-' !in year && 'T' !in year && 't' !in year && TwoDigits(month) && TwoDigits(day)
    requires 'T' !in time && 't' !in time
    ensures var t := DateText(year, month, day) + [sep] + time;
      (if FindChar(t, 'T').Some? then Split(t, 'T') else Split(t, 't')) == [DateText(year, month, day), time]
  {
    var date := DateText(year, month, day);
    var t := date + [sep] + time;
    assert 'T' !in date && 't' !in date by {
      assert month == [month[0], month[1]] && day == [day[0], day[1]];
    }
    if sep == 'T' {
      FindCharAt(date, 'T', time);
    } else {
      assert 'T' !in t;
    }
    SplitTwo(date, time, sep);
  }

  /** A written time, with or without an offset, has neither `T` nor `t`. */
  lemma TimeHasNoSeparator(hour: string, minute: string, second: string, fraction: string, o: Offset)
    requires TwoDigits(hour) && TwoDigits(minute) && TwoDigits(second) && Writable(o)
    requires forall c :: c in fraction ==> IsDigit(c)
    ensures var time := TimeText(hour, minute, second, fraction);
      'T' !in time && 't' !in time && 'T' !in time + OffsetText(o) && 't' !in time + OffsetText(o)
  {
    TimeTextCharacters(hour, minute, second, fraction);
    if !o.Zulu? {
      assert o.hours == [o.hours[0], o.hours[1]] && o.minutes == [o.minutes[0], o.minutes[1]];
    }
  }

  /**
   * A date-time written the RFC 3339 way, with `T` or with `t`, is accepted
   * exactly when its date, its time and its offset are each in range.
   */
  lemma DateTimeText(year: string, month: string, day: string, sep: char,
                     hour: string, minute: string, second: string, fraction: string, o: Offset)
    requires sep == 'T' || sep == 't'
    requires '-' !in year && 'T' !in year && 't' !in year && TwoDigits(month) && TwoDigits(day)
    requires TwoDigits(hour) && TwoDigits(minute) && TwoDigits(second) && Writable(o)
    requires forall c :: c in fraction ==> IsDigit(c)
    ensures DateTime(DateText(year, month, day) + [sep] + (TimeText(hour, minute, second, fraction) + OffsetText(o))) <==>
              Utf16Length(year) == 4 && 1 <= TwoDigitValue(month) <= 12 && 1 <= TwoDigitValue(day) <= 31
              && TwoDigitValue(hour) < 24 && TwoDigitValue(minute) < 60 && TwoDigitValue(second) <= 60
              && (o.Zulu? || (TwoDigitValue(o.hours) < 24 && TwoDigitValue(o.minutes) < 60))
  {
    TimeHasNoSeparator(hour, minute, second, fraction, o);
    DateTimeParts(year, month, day, sep, TimeText(hour, minute, second, fraction) + OffsetText(o));
    FullDateText(year, month, day);
    FullTimeText(hour, minute, second, fraction, o);
  }

  /** A date-time whose time has no offset is rejected, whatever its fields. */
  lemma DateTimeWithoutOffset(year: string, month: string, day: string, sep: char,
                              hour: string, minute: string, second: string, fraction: string)
    requires sep == 'T' || sep == 't'
    requires '-' !in year && 'T' !in year && 't' !in year && TwoDigits(month) && TwoDigits(day)
    requires TwoDigits(hour) && TwoDigits(minute) && TwoDigits(second)
    requires forall c :: c in fraction ==> IsDigit(c)
    ensures !DateTime(DateText(year, month, day) + [sep] + TimeText(hour, minute, second, fraction))
  {
    TimeHasNoSeparator(hour, minute, second, fraction, Zulu);
    DateTimeParts(year, month, day, sep, TimeText(hour, minute, second, fraction));
    MissingOffset(hour, minute, second, fraction);
  }

  /** The dates of the checker's own examples: 2008-04-01 passes, 2008-13-01 does not. */
  lemma FullDateExamples()
    ensures FullDate("2008-04-01") && !FullDate("2008-13-01")
  {
    assert "2008-04-01" == DateText("2008", "04", "01");
    assert "2008-13-01" == DateText("2008", "13", "01");
    assert Utf16Length("2008") == 4;
    FullDateText("2008", "04", "01");
    FullDateText("2008", "13", "01");
  }

  /** 1985-04-12T23:20:50.52Z, with a fraction and `Z`, passes. */
  lemma FractionAndZulu()
    ensures DateTime("1985-04-12T23:20:50.52Z")
  {
    var year, month, day, hour, minute, second := "1985", "04", "12", "23", "20", "50";
    assert TwoDigitValue(month) == 4 && TwoDigitValue(day) == 12;
    assert TwoDigitValue(hour) == 23 && TwoDigitValue(minute) == 20 && TwoDigitValue(second) == 50;
    assert Utf16Length(year) == 4;
    assert DateText(year, month, day) + ['T'] + (TimeText(hour, minute, second, "52") + OffsetText(Zulu))
           == "1985-04-12T23:20:50.52Z" by {
      assert DateText(year, month, day) == "1985-04-12";
      assert TimeText(hour, minute, second, "52") == "23:20:50.52";
    }
    DateTimeText(year, month, day, 'T', hour, minute, second, "52", Zulu);
  }

  /** 1996-12-19T16:39:57-08:00, with a negative offset, passes. */
  lemma NegativeOffset()
    ensures DateTime("1996-12-19T16:39:57-08:00")
  {
    var year, month, day, hour, minute, second := "1996", "12", "19", "16", "39", "57";
    var o := Behind("08", "00");
    assert TwoDigitValue(month) == 12 && TwoDigitValue(day) == 19;
    assert TwoDigitValue(hour) == 16 && TwoDigitValue(minute) == 39 && TwoDigitValue(second) == 57;
    assert TwoDigitValue(o.hours) == 8 && TwoDigitValue(o.minutes) == 0;
    assert Utf16Length(year) == 4;
    assert DateText(year, month, day) + ['T'] + (TimeText(hour, minute, second, "") + OffsetText(o))
           == "1996-12-19T16:39:57-08:00" by {
      assert DateText(year, month, day) == "1996-12-19";
      assert TimeText(hour, minute, second, "") == "16:39:57";
      assert OffsetText(o) == "-08:00";
    }
    DateTimeText(year, month, day, 'T', hour, minute, second, "", o);
  }

  /** 1985-04-12T24:00:00Z fails: there is no hour 24. */
  lemma HourTwentyFour()
    ensures !DateTime("1985-04-12T24:00:00Z")
  {
    var year, month, day, hour, minute, second := "1985", "04", "12", "24", "00", "00";
    assert TwoDigitValue(hour) == 24;
    assert DateText(year, month, day) + ['T'] + (TimeText(hour, minute, second, "") + OffsetText(Zulu))
           == "1985-04-12T24:00:00Z";
    DateTimeText(year, month, day, 'T', hour, minute, second, "", Zulu);
  }

  /** 1985-04-12T23:20:50.52 fails: it has no offset. */
  lemma NoOffset()
    ensures !DateTime("1985-04-12T23:20:50.52")
  {
    var year, month, day, hour, minute, second := "1985", "04", "12", "23", "20", "50";
    assert DateText(year, month, day) + ['T'] + TimeText(hour, minute, second, "52") == "1985-04-12T23:20:50.52";
    DateTimeWithoutOffset(year, month, day, 'T', hour, minute, second, "52");
  }

  /**
   * The fields are read with `parseInt` and measured with `length` only: any
   * four code units, letters included, make a year, and a blank-padded month
   * passes.
   */
  lemma LooseFields(year: string, month: string, day: string)
    requires Utf16Length(year) == 4 && '-' !in year
    requires |month| == 2 && month[0] == ' ' && IsDigit(month[1]) && month[1] != '0'
    requires TwoDigits(day) && 1 <= TwoDigitValue(day) <= 31
    ensures FullDate(DateText(year, month, day))
  {
    assert '-' !in month by { assert month == [month[0], month[1]]; }
    BlankPaddedField(month);
    var v := DigitValue(month[1]);
    assert 1 <= v < 13 by { assert month[1] as int > '0' as int; }
    FieldFromValue(month, v, 1, 13);
    TwoDigitsRange(day, 1, 32);
    FullDateFields(year, month, day);
  }

  /** A field of two code units that `parseInt` reads as a value in range passes the range check. */
  lemma FieldFromValue(t: string, v: int, lo: int, hi: int)
    requires Utf16Length(t) == 2 && ParseInt(t) == Some(v) && lo <= v < hi
    ensures TwoDigitField(t, lo, hi)
  {
  }

  /** `parseInt` skips a leading blank, so a blank and one digit read as that digit, in two code units. */
  lemma BlankPaddedField(t: string)
    requires |t| == 2 && t[0] == ' ' && IsDigit(t[1])
    ensures Utf16Length(t) == 2 && ParseInt(t) == Some(DigitValue(t[1]))
  {
    var d := t[1];
    assert t[1..] == [d];
    assert TrimStart(t) == [d] by { assert IsJsWhitespace(' '); assert !IsJsWhitespace(d); }
    assert DigitPrefix([d], false) == [d];
    assert DecimalValue([d]) == DigitValue(d) by { assert [d][..0] == []; }
  }

  /** The checker reports a month out of range once, at the property's trace. */
  lemma ValidateDateExample(ctx: Context, schema: Json, trace: Trace)
    requires ctx.config.ignoreError.None?
    requires schema == JObj([("type", JStr("string")), ("format", JStr("date"))])
    ensures ValidateDate(ctx, "2008-13-01", schema, trace) == [DateFormat(trace)]
  {
    assert Get(schema, "format") == JStr("date");
    FullDateExamples();
    assert !CorrectFormat("2008-13-01", schema);
  }
}
