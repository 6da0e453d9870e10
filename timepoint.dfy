/** `time_parser` (transform/substance_transform.py): hours since the start
    of the experiment become a synthetic timestamp on January 1970. */
module Timepoint {
  import opened Common
  import opened Text

  /** The hour text of the first-day branch: a one-character text gets a
      leading `0`, any other text is kept as it is. */
  function PadHour(time3: string): string {
    if |time3| == 1 then "0" + time3 else time3
  }

  /** The encoder on the text of `experimentalTimePoint`. The day number is
      `floor(hours / 24) + 1`; Dafny's `/` by the positive 24 is that floor. */
  function EncodeTime(time3: string): (r: Result<string>)
    ensures r.Failure? <==> ParseInt(time3).None?
    ensures r.Failure? ==> r.error == NotAnInteger(time3)
  {
    match ParseInt(time3)
    case None => Failure(NotAnInteger(time3))
    case Some(hours) =>
      var days := hours / 24 + 1;
      if days > 1 then Success(Stamp("0" + Decimal(days), "00"))
      else Success(Stamp("01", PadHour(time3)))
  }

  /** `f"1970-01-{days}T{time3}:00:00Z"` */
  function Stamp(day: string, hour: string): string {
    "1970-01-" + day + "T" + hour + ":00:00Z"
  }

  /** `time_parser(row)`: a row without `experimentalTimePoint` makes
      `int(None)` raise. */
  function TimeParser(row: Row): (r: Result<string>)
    ensures Get(row, "experimentalTimePoint").None? ==> r == Failure(NoValue("experimentalTimePoint"))
    ensures Get(row, "experimentalTimePoint").Some? ==> r == EncodeTime(Get(row, "experimentalTimePoint").value)
  {
    match Get(row, "experimentalTimePoint")
    case None => Failure(NoValue("experimentalTimePoint"))
    case Some(time3) => EncodeTime(time3)
  }

  /** Day and hour written as two digits each: the format the encoder is
      meant to produce. */
  function TwoDigits(n: nat): string
    requires n < 100
  {
    [DigitChar(n / 10), DigitChar(n % 10)]
  }

  function Iso(day: nat, hour: nat): string
    requires day < 100 && hour < 100
  {
    Stamp(TwoDigits(day), TwoDigits(hour))
  }

  /** Fewer than 24 hours: day `01`, and the hour is the input text padded
      to two characters when it has one. */
  lemma TimeFirstDay(time3: string, hours: int)
    requires ParseInt(time3) == Some(hours) && hours < 24
    ensures EncodeTime(time3) == Success(Stamp("01", PadHour(time3)))
  {
  }

  /** For a canonical hour text below 24 the result is the intended
      timestamp of that hour on day 1. */
  lemma {:induction false} TimeFirstDayIso(hours: nat)
    requires hours < 24
    ensures EncodeTime(Decimal(hours)) == Success(Iso(1, hours))
  {
    ParseDecimal(hours);
    DecimalDigits(hours);
    assert DigitChar(0) == '0';
    if hours >= 10 {
      DecimalTwoDigits(hours);
    }
    assert PadHour(Decimal(hours)) == TwoDigits(hours);
    assert TwoDigits(1) == "01";
  }

  /** 24 hours or more: the hour field is always `00` (the hour of the day
      is lost) and the day field is `0` followed by the day number. */
  lemma TimeLaterDays(time3: string, hours: int)
    requires ParseInt(time3) == Some(hours) && hours >= 24
    ensures EncodeTime(time3) == Success(Stamp("0" + Decimal(hours / 24 + 1), "00"))
  {
  }

  /** From day 2 to day 9 that is the intended timestamp of midnight. */
  lemma {:induction false} TimeLaterDaysIso(hours: nat)
    requires 24 <= hours < 216
    ensures EncodeTime(Decimal(hours)) == Success(Iso(hours / 24 + 1, 0))
  {
    ParseDecimal(hours);
    var days := hours / 24 + 1;
    assert 2 <= days < 10;
    assert Decimal(days) == [DigitChar(days)];
    assert DigitChar(0) == '0';
    assert "0" + Decimal(days) == TwoDigits(days);
    assert TwoDigits(0) == "00";
  }

  /** From day 10 on the day field has three characters, so the text is one
      character longer than an ISO 8601 timestamp. */
  lemma {:induction false} TimeDayOverflow(hours: nat)
    requires 216 <= hours < 2376
    ensures EncodeTime(Decimal(hours)).Success?
    ensures |EncodeTime(Decimal(hours)).value| == |Iso(1, 0)| + 1
  {
    ParseDecimal(hours);
    var days := hours / 24 + 1;
    assert 10 <= days < 100;
    DecimalTwoDigits(days);
  }

  lemma TimeFiveHours()
    ensures EncodeTime("5") == Success("1970-01-01T05:00:00Z")
  {
    assert Decimal(5) == "5";
    TimeFirstDayIso(5);
    assert TwoDigits(1) == "01" && TwoDigits(5) == "05";
    assert "1970-01-" + "01" + "T" == "1970-01-01T";
    assert "1970-01-01T" + "05" + ":00:00Z" == "1970-01-01T05:00:00Z";
  }

  lemma TimeTwentySixHours()
    ensures EncodeTime("26") == Success("1970-01-02T00:00:00Z")
  {
    assert Decimal(26) == "26";
    TimeLaterDaysIso(26);
    assert TwoDigits(2) == "02" && TwoDigits(0) == "00";
    assert "1970-01-" + "02" + "T" == "1970-01-02T";
    assert "1970-01-02T" + "00" + ":00:00Z" == "1970-01-02T00:00:00Z";
  }
}
