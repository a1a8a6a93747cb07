/** Expressions for which the code does not do what its comments suggest. */
module CronExamples {
  import opened Text
  import opened CronSchedule
  import opened CronField
  import opened CronRoundTrip
  import opened CronTotality
  import opened CronNext
  import opened CronParser
  import opened CronExpressions
  import opened CatchUp
  import opened CronCatchUp

  ghost predicate Numbers(f: seq<string>, ns: seq<nat>) {
    |f| == |ns| && forall i | 0 <= i < |f| :: Spells(f[i], ns[i])
  }

  /** Midnight on a day of a month, on whatever day of the week. */
  lemma DateFields(f: seq<string>, day: nat, month: nat)
    requires |f| == 6 && Numbers(f[..5], [0, 0, 0, day, month]) && Unrestricted(f[5], DOW)
    requires 1 <= day <= 31 && 1 <= month <= 12
    ensures SixFields(f).Some?
    ensures var s := SixFields(f).value; s.dom == {day} && s.month == {month} && STAR_BIT in s.dow
  {
    var g, ns := f[..5], [0, 0, 0, day, month];
    assert Spells(g[0], ns[0]) && Spells(g[1], ns[1]) && Spells(g[2], ns[2]);
    assert Spells(g[3], ns[3]) && Spells(g[4], ns[4]);
    FieldNumber(f[0], 0, SECONDS);
    FieldNumber(f[1], 0, MINUTES);
    FieldNumber(f[2], 0, HOURS);
    FieldNumber(f[3], day, DOM);
    FieldNumber(f[4], month, MONTHS);
    DowAlreadyNormal(f[5]);
  }

  /** The 30th of February. */
  const THIRTIETH: seq<string> := ["0", "0", "30", "2", "*"]

  lemma ThirtiethNumbers()
    ensures Numbers((["0"] + THIRTIETH)[..5], [0, 0, 0, 30, 2])
  {
    Numerals();
    assert (["0"] + THIRTIETH)[..5] == ["0", "0", "0", "30", "2"];
  }

  lemma FiveFields(f: seq<string>, g: seq<string>)
    requires |f| == 5 && g == ["0"] + f
    ensures ScheduleOf(f) == SixFields(g)
  {
  }

  lemma NoCommonThirtieth(s: SpecSchedule)
    requires s.dom == {30} && s.month == {2}
    ensures !PermitsCommonDate(s)
  {
  }

  lemma StarDow()
    ensures Unrestricted("*", DOW)
  {
    NamesAreProper();
    StarField(DOW);
  }

  /** The expression `0 0 30 2 *` is accepted, and permits no date of a common year. */
  lemma ThirtiethAccepted()
    ensures ScheduleOf(THIRTIETH).Some?
    ensures var s := ScheduleOf(THIRTIETH).value;
      s.dom == {30} && s.month == {2} && STAR_BIT in s.dow && !PermitsCommonDate(s)
  {
    ThirtiethNumbers();
    StarDow();
    var f := ["0"] + THIRTIETH;
    assert f[5] == "*";
    DateFields(f, 30, 2);
    FiveFields(THIRTIETH, f);
    NoCommonThirtieth(ScheduleOf(THIRTIETH).value);
  }

  lemma ThirtiethText()
    ensures Join(THIRTIETH, ' ') == "0 0 30 2 *"
    ensures AllWords(THIRTIETH)
  {
    assert THIRTIETH[1..] == ["0", "30", "2", "*"] && THIRTIETH[1..][1..] == ["30", "2", "*"];
    assert ["30", "2", "*"][1..] == ["2", "*"] && ["2", "*"][1..] == ["*"];
    assert Join(["2", "*"], ' ') == "2 *" && Join(["30", "2", "*"], ' ') == "30 2 *";
    assert Join(THIRTIETH[1..], ' ') == "0 30 2 *";
  }

  /** And so it is when `Parse` reads it as one string. */
  lemma ThirtiethParsed(parseDuration: string -> Option<int>)
    ensures ScheduleOf(THIRTIETH).Some?
    ensures Parse("0 0 30 2 *", parseDuration) == Some(Cron(ScheduleOf(THIRTIETH).value))
  {
    ThirtiethAccepted();
    ThirtiethText();
    ParseJoined(THIRTIETH, parseDuration);
  }

  lemma NeverThirtieth(s: SpecSchedule, x: nat)
    requires s.dom == {30} && s.month == {2} && STAR_BIT in s.dow
    ensures !s.Matches(x)
  {
  }

  lemma NeverFires(s: SpecSchedule, next: Time, now: Time)
    requires s.dom == {30} && s.month == {2} && STAR_BIT in s.dow && next <= now
    ensures NextActivation(s, now) == 0 && !LoopEnds(NextFn(Cron(s)), next, now)
  {
    ActivationIsLeast(s, now);
    NeverThirtieth(s, NextActivation(s, now) / SECOND);
    CronLoopEndsIff(s, next, now);
  }

  /** It never fires, and the dispatcher's catch-up loop for it never ends. */
  lemma ThirtiethLoopsForever(next: Time, now: Time)
    requires next <= now
    ensures ScheduleOf(THIRTIETH).Some?
    ensures NextActivation(ScheduleOf(THIRTIETH).value, now) == 0
    ensures !LoopEnds(NextFn(Cron(ScheduleOf(THIRTIETH).value)), next, now)
  {
    ThirtiethAccepted();
    NeverFires(ScheduleOf(THIRTIETH).value, next, now);
  }

  /** Sunday cannot be written as 7. */
  lemma SevenRejected()
    ensures Compile("7", DOW) == None
  {
    Numerals();
    FieldNumber("7", 7, DOW);
  }

  lemma SteppedNumber(lo: string, step: string, b: Bounds)
    requires ProperNames(b) && b.max < STAR_BIT && IsNumeral(lo) && IsNumeral(step)
    requires b.min <= Digits(lo) <= b.max && 0 < Digits(step) < WORD
    ensures Compile(lo + ['/'] + step, b) == Some(StepBits(Digits(lo), b.max, Digits(step)))
  {
    var t, m := TermSyntax(Single(Numeral(lo)), Some(step)), Term(Digits(lo), b.max, Digits(step), false);
    SteppedTerm(lo, step, b);
    OneTerm(t, b);
    PlainMask(m);
  }

  lemma SteppedTerm(lo: string, step: string, b: Bounds)
    requires IsNumeral(lo) && IsNumeral(step)
    ensures var t := TermSyntax(Single(Numeral(lo)), Some(step));
      && Spelled(t, b) && Render(t) == lo + ['/'] + step
      && Meaning(t, b) == Term(Digits(lo), b.max, Digits(step), false)
  {
  }

  lemma PlainMask(m: Term)
    requires m.lo < WORD && m.hi < STAR_BIT && 0 < m.step < WORD && !m.star
    ensures TermMask(m) == StepBits(m.lo, m.hi, m.step)
  {
  }

  /** With a step of 2^64 - 1 a field counts down from its start. */
  lemma OneDown(n: nat, hi: nat)
    requires 0 < n <= hi < STAR_BIT
    ensures n - 1 in StepBits(n, hi, WORD - 1)
  {
    assert AddWord(n, WORD - 1) == n - 1;
  }

  /** The minute field `7/18446744073709551615` permits 6. */
  lemma WrappedStep()
    ensures var text := "7" + ['/'] + Decimal(WORD - 1);
      && Compile(text, MINUTES).Some? && 6 in Compile(text, MINUTES).value
      && !InProgression(6, 7, 59, WORD - 1)
  {
    Numerals();
    NamesAreProper();
    ParseDecimal(WORD - 1);
    SteppedNumber("7", Decimal(WORD - 1), MINUTES);
    OneDown(7, MINUTES.max);
  }
}
