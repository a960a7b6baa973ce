/** The time printers of the prototype: a number of seconds as padded digits. */
module TimeFormat {
  import opened Wrappers
  import opened Decimal

  /** `Math.max(0, Math.floor(x))` */
  function WholeSeconds(x: real): nat {
    if x < 0.0 then 0 else x.Floor
  }

  /** `Math.max(0, Math.ceil(x))` */
  function CeilSeconds(x: real): nat {
    if x <= 0.0 then 0 else -((-x).Floor)
  }

  function Two(n: nat): string {
    PadStart(Print(n), 2)
  }

  function FormatDuration(totalSeconds: real): string {
    var s := WholeSeconds(totalSeconds);
    var hours := s / 3600;
    var minutes := s % 3600 / 60;
    var seconds := s % 60;
    if hours > 0 then Two(hours) + ":" + Two(minutes) + ":" + Two(seconds)
    else Two(minutes) + ":" + Two(seconds)
  }

  function FormatCountdown(totalSeconds: real): string {
    var s := CeilSeconds(totalSeconds);
    Two(s / 60) + ":" + Two(s % 60)
  }

  function FormatTimerHMS(totalSeconds: real): string {
    var s := WholeSeconds(totalSeconds);
    Two(s / 3600) + ":" + Two(s % 3600 / 60) + ":" + Two(s % 60)
  }

  /** Reads colon-separated fields as digits of base 60, most significant first.
      Written independently of the three printers. */
  function ReadClock(s: string): Option<nat> {
    ReadFields(Fields(s, ':'), 0)
  }

  function ReadFields(fs: seq<string>, acc: nat): Option<nat> {
    if fs == [] then Some(acc)
    else match Read(fs[0])
      case None => None
      case Some(n) => ReadFields(fs[1..], 60 * acc + n)
  }

  lemma TwoIsPlain(n: nat)
    ensures ':' !in Two(n) && Read(Two(n)) == Some(n)
  {
    ReadPadded(n, 2);
    DigitsHaveNoSep(Two(n), ':');
  }

  lemma FieldsOfTwo(a: nat, b: nat)
    ensures Fields(Two(a) + ":" + Two(b), ':') == [Two(a), Two(b)]
  {
    TwoIsPlain(a);
    TwoIsPlain(b);
    FieldsCons(Two(a), ':', Two(b));
    FieldsNoSep(Two(b), ':');
  }

  lemma FieldsOfThree(a: nat, b: nat, c: nat)
    ensures Fields(Two(a) + ":" + Two(b) + ":" + Two(c), ':') == [Two(a), Two(b), Two(c)]
  {
    TwoIsPlain(a);
    FieldsOfTwo(b, c);
    assert Two(a) + ":" + Two(b) + ":" + Two(c) == Two(a) + [':'] + (Two(b) + ":" + Two(c));
    FieldsCons(Two(a), ':', Two(b) + ":" + Two(c));
  }

  lemma ReadThree(a: nat, b: nat, c: nat)
    ensures ReadClock(Two(a) + ":" + Two(b) + ":" + Two(c)) == Some(3600 * a + 60 * b + c)
  {
    FieldsOfThree(a, b, c);
    TwoIsPlain(a);
    TwoIsPlain(b);
    TwoIsPlain(c);
    assert [Two(a), Two(b), Two(c)][1..] == [Two(b), Two(c)];
    assert [Two(b), Two(c)][1..] == [Two(c)];
    calc {
      ReadFields([Two(a), Two(b), Two(c)], 0);
      ReadFields([Two(b), Two(c)], a);
      ReadFields([Two(c)], 60 * a + b);
      ReadFields([], 60 * (60 * a + b) + c);
    }
  }

  lemma ReadTwo(a: nat, b: nat)
    ensures ReadClock(Two(a) + ":" + Two(b)) == Some(60 * a + b)
  {
    FieldsOfTwo(a, b);
    TwoIsPlain(a);
    TwoIsPlain(b);
    assert [Two(a), Two(b)][1..] == [Two(b)];
    calc {
      ReadFields([Two(a), Two(b)], 0);
      ReadFields([Two(b)], a);
      ReadFields([], 60 * a + b);
    }
  }

  lemma SplitSeconds(s: nat)
    ensures 3600 * (s / 3600) + 60 * (s % 3600 / 60) + s % 60 == s
    ensures 60 * (s / 60) + s % 60 == s
    ensures s % 3600 / 60 < 60 && s % 60 < 60
  {
    var h, r := s / 3600, s % 3600;
    assert s == 3600 * h + r;
    MinutesKeepSeconds(60 * h, r);
  }

  lemma MinutesKeepSeconds(m: nat, r: nat)
    ensures (60 * m + r) % 60 == r % 60
  {
    assert r == 60 * (r / 60) + r % 60;
    assert 60 * m + r == 60 * (m + r / 60) + r % 60;
  }

  lemma WholeIsFloor(x: real)
    ensures x < 0.0 ==> WholeSeconds(x) == 0
    ensures x >= 0.0 ==> WholeSeconds(x) as real <= x < WholeSeconds(x) as real + 1.0
  {
  }

  lemma DurationReads(x: real)
    ensures ReadClock(FormatDuration(x)) == Some(WholeSeconds(x))
  {
    var s := WholeSeconds(x);
    SplitSeconds(s);
    ReadThree(s / 3600, s % 3600 / 60, s % 60);
    ReadTwo(s % 3600 / 60, s % 60);
  }

  /** Whatever number of seconds is given, reading the display gives the whole seconds back. */
  lemma TimerReadsBack(x: real)
    ensures ReadClock(FormatTimerHMS(x)) == Some(WholeSeconds(x))
    ensures x < 0.0 ==> ReadClock(FormatTimerHMS(x)) == Some(0)
    ensures x >= 0.0 ==> exists n: nat :: ReadClock(FormatTimerHMS(x)) == Some(n) && n as real <= x < n as real + 1.0
  {
    var s := WholeSeconds(x);
    SplitSeconds(s);
    ReadThree(s / 3600, s % 3600 / 60, s % 60);
  }

  lemma DurationReadsBack(x: real)
    ensures ReadClock(FormatDuration(x)) == Some(WholeSeconds(x))
    ensures x < 0.0 ==> ReadClock(FormatDuration(x)) == Some(0)
    ensures x >= 0.0 ==> exists n: nat :: ReadClock(FormatDuration(x)) == Some(n) && n as real <= x < n as real + 1.0
  {
    DurationReads(x);
    WholeIsFloor(x);
  }

  lemma CountdownReadsBack(x: real)
    ensures ReadClock(FormatCountdown(x)) == Some(CeilSeconds(x))
    ensures x <= 0.0 ==> ReadClock(FormatCountdown(x)) == Some(0)
    ensures x > 0.0 ==> exists n: nat :: ReadClock(FormatCountdown(x)) == Some(n) && n as real - 1.0 < x <= n as real
  {
    var s := CeilSeconds(x);
    SplitSeconds(s);
    ReadTwo(s / 60, s % 60);
  }

  /** Two displays are equal exactly when the whole seconds are: each printer is injective. */
  lemma PrintersInjective(x: real, y: real)
    ensures FormatTimerHMS(x) == FormatTimerHMS(y) <==> WholeSeconds(x) == WholeSeconds(y)
    ensures FormatDuration(x) == FormatDuration(y) <==> WholeSeconds(x) == WholeSeconds(y)
    ensures FormatCountdown(x) == FormatCountdown(y) <==> CeilSeconds(x) == CeilSeconds(y)
  {
    TimerReadsBack(x);
    TimerReadsBack(y);
    DurationReadsBack(x);
    DurationReadsBack(y);
    CountdownReadsBack(x);
    CountdownReadsBack(y);
  }

  /** The shape of the displays: the minutes and seconds of the timer are two digits below 60,
      its hours at least two digits, and the short form is the timer without a zero hour. */
  lemma DisplayShape(x: real)
    ensures var fs := Fields(FormatTimerHMS(x), ':');
            |fs| == 3 && |fs[0]| >= 2 && |fs[1]| == 2 && |fs[2]| == 2
            && Read(fs[1]).Some? && Read(fs[1]).value < 60
            && Read(fs[2]).Some? && Read(fs[2]).value < 60
    ensures FormatTimerHMS(x) == (if x < 3600.0 then "00:" else "") + FormatDuration(x)
    ensures var fs := Fields(FormatCountdown(x), ':');
            |fs| == 2 && |fs[0]| >= 2 && |fs[1]| == 2 && Read(fs[1]).Some? && Read(fs[1]).value < 60
  {
    var s, c := WholeSeconds(x), CeilSeconds(x);
    SplitSeconds(s);
    SplitSeconds(c);
    FieldsOfThree(s / 3600, s % 3600 / 60, s % 60);
    FieldsOfTwo(c / 60, c % 60);
    BelowSixty(s % 3600 / 60);
    BelowSixty(s % 60);
    BelowSixty(c % 60);
    if s / 3600 == 0 {
      assert x < 3600.0;
      assert Print(0) == "0" && PadStart("00", 2) == "00" && "0" + "0" == "00";
      assert Two(0) == "00";
    } else {
      assert s >= 3600;
      assert x >= 3600.0;
      assert "" + FormatDuration(x) == FormatDuration(x);
    }
  }

  lemma BelowSixty(n: nat)
    requires n < 60
    ensures |Two(n)| == 2 && Read(Two(n)) == Some(n)
  {
    TwoDigits(n);
    TwoIsPlain(n);
  }
}
