/** The departure-time picker: a choice among preset values and a custom
    `datetime-local` field, and the formatter that renders the current local
    time in that field's format. The clock is a parameter (`LocalTime`). */
module DateTimePicker {
  import opened Base
  import opened Text

  /** The component's two pieces of state. */
  datatype Picker = Picker(customDateTime: string, isCustom: bool)

  /** The state after an event, and the value passed to `onChange`, if any. */
  datatype Change = Change(picker: Picker, emitted: Option<string>)

  const Custom := "custom"

  /** The state on mount: no custom value, preset choice shown. */
  function Initial(): Picker {
    Picker("", false)
  }

  /** `handleValueChange`: a preset is emitted as chosen; choosing "custom"
      switches to the custom field and emits whatever it last held. */
  function HandleValueChange(p: Picker, newValue: string): (r: Change)
    ensures r.picker.isCustom <==> newValue == Custom
    ensures r.picker.customDateTime == p.customDateTime
    ensures r.emitted.Some?
    ensures newValue != Custom ==> r.emitted.value == newValue
    ensures newValue == Custom ==> r.emitted.value == p.customDateTime
  {
    if newValue == Custom then Change(Picker(p.customDateTime, true), Some(p.customDateTime))
    else Change(Picker(p.customDateTime, false), Some(newValue))
  }

  /** `handleCustomDateTimeChange`: the edit is always kept, and passed on
      only while the custom field is active. */
  function HandleCustomChange(p: Picker, dateTime: string): (r: Change)
    ensures r.picker == Picker(dateTime, p.isCustom)
    ensures r.emitted.Some? <==> p.isCustom
    ensures r.emitted.Some? ==> r.emitted.value == dateTime
  {
    Change(Picker(dateTime, p.isCustom), if p.isCustom then Some(dateTime) else None)
  }

  /** An event the component reacts to. */
  datatype Event = Select(value: string) | Edit(dateTime: string)

  function Handle(p: Picker, e: Event): Change {
    match e
    case Select(v) => HandleValueChange(p, v)
    case Edit(d) => HandleCustomChange(p, d)
  }

  /** The picker after a run of events. */
  function Run(p: Picker, events: seq<Event>): Picker
    decreases |events|
  {
    if |events| == 0 then p else Run(Handle(p, events[0]).picker, events[1..])
  }

  /** The last `Edit` among the events, or `fallback` when there is none. */
  function LastEdit(events: seq<Event>, fallback: string): string
    decreases |events|
  {
    if |events| == 0 then fallback
    else if events[|events| - 1].Edit? then events[|events| - 1].dateTime
    else LastEdit(events[..|events| - 1], fallback)
  }

  /** After any run of events, choosing "custom" emits the most recent edit
      (or the value the field started with). */
  lemma {:induction false} CustomEmitsLastEdit(p: Picker, events: seq<Event>)
    ensures HandleValueChange(Run(p, events), Custom).emitted == Some(LastEdit(events, p.customDateTime))
    ensures Run(p, events).customDateTime == LastEdit(events, p.customDateTime)
    decreases |events|
  {
    if |events| > 0 {
      var front := events[..|events| - 1];
      var last := events[|events| - 1];
      RunSplit(p, front, last);
      assert events == front + [last];
      CustomEmitsLastEdit(p, front);
    }
  }

  /** From the mounted state, choosing "custom" emits the last edit so far,
      or the empty string when there has been none. */
  lemma FromMountCustomEmitsLastEdit(events: seq<Event>)
    ensures HandleValueChange(Run(Initial(), events), Custom).emitted == Some(LastEdit(events, ""))
  {
    CustomEmitsLastEdit(Initial(), events);
  }

  /** Running a sequence of events one more step. */
  lemma {:induction false} RunSplit(p: Picker, front: seq<Event>, last: Event)
    ensures Run(p, front + [last]) == Handle(Run(p, front), last).picker
    decreases |front|
  {
    if |front| == 0 {
      assert (front + [last])[1..] == [];
    } else {
      assert (front + [last])[1..] == front[1..] + [last];
      RunSplit(Handle(p, front[0]).picker, front[1..], last);
    }
  }

  /** The calendar fields `Date` reports for the local time zone, with the
      month counted from 0 as `getMonth()` does. */
  datatype LocalTime = LocalTime(year: int, month0: nat, day: nat, hours: nat, minutes: nat)

  predicate ValidTime(t: LocalTime) {
    t.month0 < 12 && 1 <= t.day <= 31 && t.hours < 24 && t.minutes < 60
  }

  /** `String(n).padStart(2, '0')` for a field below 100. */
  function TwoDigits(n: nat): (r: string)
    requires n < 100
    ensures |r| == 2 && AllDigits(r)
  {
    NatToStringLength(n);
    PadStart(NatToString(n), 2, '0')
  }

  /** Reading the two digits back gives the field's value. */
  lemma TwoDigitsValue(n: nat)
    requires n < 100
    ensures DigitsValue(TwoDigits(n)) == n
  {
    DigitsValueOfNatToString(n);
    var r := TwoDigits(n);
    if n < 10 {
      var d := NatToString(n);
      assert r == ['0'] + d && r[..1] == ['0'] && r[1..] == d;
      assert DigitsValue(r[..1]) == 0 by {
        assert r[..1][..0] == [];
      }
      assert d[..0] == [];
    }
  }

  /** `getCurrentDateTime`: `YYYY-MM-DDTHH:mm`, with the month shown from 1. */
  function FormatLocal(t: LocalTime): (r: string)
    requires ValidTime(t)
    ensures 1000 <= t.year < 10000 ==> |r| == 16 && r[4] == '-' && r[7] == '-' && r[10] == 'T' && r[13] == ':'
  {
    NatToStringLength(if t.year >= 0 then t.year else 0);
    IntToString(t.year) + "-" + TwoDigits(t.month0 + 1) + "-" + TwoDigits(t.day)
      + "T" + TwoDigits(t.hours) + ":" + TwoDigits(t.minutes)
  }

  /** The fields a well-formed `YYYY-MM-DDTHH:mm` string carries, month
      counted from 1. */
  datatype Fields = Fields(year: nat, month: nat, day: nat, hours: nat, minutes: nat)

  /** Reads a `YYYY-MM-DDTHH:mm` string; `None` for any other shape. */
  function ParseLocal(s: string): (r: Option<Fields>)
    ensures r.Some? ==> |s| == 16 && r.value.month < 100 && r.value.minutes < 100
  {
    if |s| == 16 && s[4] == '-' && s[7] == '-' && s[10] == 'T' && s[13] == ':'
       && AllDigits(s[..4]) && AllDigits(s[5..7]) && AllDigits(s[8..10])
       && AllDigits(s[11..13]) && AllDigits(s[14..])
    then
      TwoDigitsBound(s[5..7]);
      TwoDigitsBound(s[14..]);
      Some(Fields(DigitsValue(s[..4]), DigitsValue(s[5..7]), DigitsValue(s[8..10]),
                  DigitsValue(s[11..13]), DigitsValue(s[14..])))
    else None
  }

  lemma TwoDigitsBound(s: string)
    requires |s| == 2 && AllDigits(s)
    ensures DigitsValue(s) < 100
  {
    assert s[..1][..0] == [];
    assert IsDigit(s[0]) && IsDigit(s[1]);
    assert DigitsValue(s[..1]) == s[0] as int - '0' as int;
  }

  /** For a four-digit year the rendering reads back as the same calendar
      fields, with the month shifted from 0-based to 1-based. */
  lemma FormatThenParse(t: LocalTime)
    requires ValidTime(t) && 1000 <= t.year < 10000
    ensures ParseLocal(FormatLocal(t)) == Some(Fields(t.year, t.month0 + 1, t.day, t.hours, t.minutes))
  {
    var r := FormatLocal(t);
    NatToStringLength(t.year);
    DigitsValueOfNatToString(t.year);
    var y, mo, d, h, mi := NatToString(t.year), TwoDigits(t.month0 + 1), TwoDigits(t.day),
                           TwoDigits(t.hours), TwoDigits(t.minutes);
    assert r == y + "-" + mo + "-" + d + "T" + h + ":" + mi;
    assert r[..4] == y;
    assert r[5..7] == mo;
    assert r[8..10] == d;
    assert r[11..13] == h;
    assert r[14..] == mi;
    TwoDigitsValue(t.month0 + 1);
    TwoDigitsValue(t.day);
    TwoDigitsValue(t.hours);
    TwoDigitsValue(t.minutes);
  }
}
