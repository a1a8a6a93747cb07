/** The predefined descriptors, fixed intervals in expressions, and the names of months and weekdays. */
module CronDescriptors {
  import opened Text
  import opened Calendar
  import opened CronSchedule
  import opened CronField
  import opened CronRoundTrip
  import opened CronParser
  import opened CronExpressions

  // Fields that are a number or a star.

  ghost predicate Says(text: string, n: Option<nat>, b: Bounds) {
    if n.Some? then Spells(text, n.value) && b.min <= n.value <= b.max else text == RenderRange(Star)
  }

  /** The mask is one number, or unrestricted. */
  ghost predicate Permits(mask: Mask, n: Option<nat>, b: Bounds) {
    if n.Some? then mask == {n.value}
    else STAR_BIT in mask && forall v | b.min <= v <= b.max :: v in mask
  }

  lemma SaysPermits(text: string, n: Option<nat>, b: Bounds)
    requires ProperNames(b) && b.min <= b.max < STAR_BIT && Says(text, n, b)
    ensures Compile(text, b).Some? && Permits(Compile(text, b).value, n, b)
  {
    if n.Some? {
      OneNumber(text, b);
    } else {
      StarField(b);
      AcceptedField(Split(text, ','), b);
    }
  }

  ghost predicate AllSay(f: seq<string>, at: seq<Option<nat>>) {
    |f| == |at| == 6 && forall i | 0 <= i < 6 :: Says(f[i], at[i], Field(i))
  }

  lemma AllPermit(f: seq<string>, at: seq<Option<nat>>, i: nat)
    requires AllSay(f, at) && i < 6
    ensures Compiles(f[i], Field(i)) && Permits(Compile(f[i], Field(i)).value, at[i], Field(i))
  {
    FieldsAreProper(i);
    SaysPermits(f[i], at[i], Field(i));
  }

  lemma SayCompile(f: seq<string>, at: seq<Option<nat>>)
    requires AllSay(f, at)
    ensures SixFields(f).Some? && ScheduleOf(f) == SixFields(f)
    ensures forall i | 0 <= i < 6 :: Permits(PartOf(SixFields(f).value, i), at[i], Field(i))
  {
    forall i | 0 <= i < 6
      ensures Compiles(f[i], Field(i))
    {
      AllPermit(f, at, i);
    }
    SixFieldsIff(f);
    forall i | 0 <= i < 6
      ensures Permits(PartOf(SixFields(f).value, i), at[i], Field(i))
    {
      AllPermit(f, at, i);
      SixFieldsPart(f, i);
    }
  }

  predicate Is(n: Option<nat>, v: nat) {
    n.Some? ==> v == n.value
  }

  lemma PermitsIff(mask: Mask, n: Option<nat>, b: Bounds, v: nat)
    requires Permits(mask, n, b) && b.min <= v <= b.max && b.max < STAR_BIT
    ensures v in mask <==> Is(n, v)
  {
  }

  /** The schedule fires exactly when every part that is given as a number has that value. */
  lemma FiresIff(s: SpecSchedule, at: seq<Option<nat>>, x: nat)
    requires |at| == 6 && (at[3].None? || at[5].None?)
    requires forall i | 0 <= i < 6 :: Permits(PartOf(s, i), at[i], Field(i))
    ensures s.Matches(x) <==>
      && Is(at[0], SecondOf(x)) && Is(at[1], MinuteOf(x)) && Is(at[2], HourOf(x))
      && Is(at[3], Day(x)) && Is(at[4], Month(x)) && Is(at[5], Weekday(x))
  {
    PermitsIff(PartOf(s, 0), at[0], Field(0), SecondOf(x));
    PermitsIff(PartOf(s, 1), at[1], Field(1), MinuteOf(x));
    PermitsIff(PartOf(s, 2), at[2], Field(2), HourOf(x));
    PermitsIff(PartOf(s, 3), at[3], Field(3), Day(x));
    PermitsIff(PartOf(s, 4), at[4], Field(4), Month(x));
    PermitsIff(PartOf(s, 5), at[5], Field(5), Weekday(x));
  }

  /** The text is the words of one character each, with blanks between them. */
  ghost predicate Spaced(text: string, f: seq<string>) {
    |f| == 6 && (forall i | 0 <= i < 6 :: |f[i]| == 1)
    && text == f[0] + " " + f[1] + " " + f[2] + " " + f[3] + " " + f[4] + " " + f[5]
  }

  lemma JoinSpaced(text: string, f: seq<string>)
    requires Spaced(text, f)
    ensures Join(f, ' ') == text
  {
    var e, d, c, b := f[4..], f[3..], f[2..], f[1..];
    assert b[1..] == c && c[1..] == d && d[1..] == e && e[1..] == [f[5]];
    assert Join(e, ' ') == f[4] + " " + f[5];
    assert Join(d, ' ') == f[3] + " " + Join(e, ' ');
    assert Join(c, ' ') == f[2] + " " + Join(d, ' ');
    assert Join(b, ' ') == f[1] + " " + Join(c, ' ');
    assert Join(f, ' ') == f[0] + " " + Join(b, ' ');
  }

  lemma SaysWord(text: string, n: Option<nat>, b: Bounds)
    requires Says(text, n, b)
    ensures IsWord(text)
  {
  }

  ghost predicate IsDescriptor(name: string, text: string) {
    name in DESCRIPTORS && DESCRIPTORS[name] == text
  }

  /** It starts with the at sign, and is neither surrounded by blanks nor `@every`. */
  predicate LooksPredefined(name: string) {
    |name| > 1 && name[0] == '@' && name[1] != 'e' && !IsSpace(name[|name| - 1])
  }

  lemma ParseDescriptor(name: string, text: string, parseDuration: string -> Option<int>)
    requires LooksPredefined(name) && IsDescriptor(name, text)
    ensures Parse(name, parseDuration) == FieldSchedule(Fields(text))
  {
    NothingToTrim(name);
    assert EVERY[1] == 'e';
  }

  lemma DescriptorSays(name: string, text: string, f: seq<string>, at: seq<Option<nat>>,
                       parseDuration: string -> Option<int>, x: nat)
    requires LooksPredefined(name) && IsDescriptor(name, text) && Spaced(text, f) && AllSay(f, at)
    requires at[3].None? || at[5].None?
    ensures var r := Parse(name, parseDuration);
      && r.Some? && r.value.Cron?
      && (r.value.spec.Matches(x) <==>
          && Is(at[0], SecondOf(x)) && Is(at[1], MinuteOf(x)) && Is(at[2], HourOf(x))
          && Is(at[3], Day(x)) && Is(at[4], Month(x)) && Is(at[5], Weekday(x)))
  {
    forall i | 0 <= i < 6
      ensures IsWord(f[i])
    {
      SaysWord(f[i], at[i], Field(i));
    }
    JoinSpaced(text, f);
    FieldsJoin(f);
    ParseDescriptor(name, text, parseDuration);
    SayCompile(f, at);
    FiresIff(SixFields(f).value, at, x);
  }

  // The table.

  function Digit(n: Option<nat>): string {
    if n.None? then "*" else if n.value == 0 then "0" else "1"
  }

  function DigitsOf(at: seq<Option<nat>>): seq<string> {
    seq(|at|, i requires 0 <= i < |at| => Digit(at[i]))
  }

  lemma DigitSays(n: Option<nat>, b: Bounds)
    requires n.Some? ==> b.min <= n.value <= b.max && n.value < 2
    ensures Says(Digit(n), n, b) && |Digit(n)| == 1
  {
    assert Digits("") == 0;
    assert "0"[..0] == "" && "1"[..0] == "";
    assert Digits("0") == 0 && Digits("1") == 1;
  }

  lemma DigitsSay(at: seq<Option<nat>>)
    requires |at| == 6
    requires forall i | 0 <= i < 6 && at[i].Some? :: at[i].value == (if i == 3 || i == 4 then 1 else 0)
    ensures AllSay(DigitsOf(at), at) && forall i | 0 <= i < 6 :: |DigitsOf(at)[i]| == 1
  {
    forall i | 0 <= i < 6
      ensures Says(DigitsOf(at)[i], at[i], Field(i)) && |DigitsOf(at)[i]| == 1
    {
      DigitSays(at[i], Field(i));
    }
  }

  /** On the hour, and further restricted as the flags say. */
  function Row(midnight: bool, first: bool, january: bool, sunday: bool): seq<Option<nat>> {
    [Some(0), Some(0), if midnight then Some(0) else None, if first then Some(1) else None,
     if january then Some(1) else None, if sunday then Some(0) else None]
  }

  lemma RowText(text: string, at: seq<Option<nat>>)
    requires |at| == 6 && forall i | 0 <= i < 6 :: |DigitsOf(at)[i]| == 1
    requires text == Digit(at[0]) + " " + Digit(at[1]) + " " + Digit(at[2]) + " " + Digit(at[3]) + " "
                     + Digit(at[4]) + " " + Digit(at[5])
    ensures Spaced(text, DigitsOf(at))
  {
  }

  function RowString(midnight: bool, first: bool, january: bool, sunday: bool): string {
    "0 0 " + (if midnight then "0" else "*") + " " + (if first then "1" else "*") + " "
    + (if january then "1" else "*") + " " + (if sunday then "0" else "*")
  }

  lemma RowFires(name: string, midnight: bool, first: bool, january: bool, sunday: bool,
                 parseDuration: string -> Option<int>, x: nat)
    requires LooksPredefined(name) && !(first && sunday)
    requires IsDescriptor(name, RowString(midnight, first, january, sunday))
    ensures var r := Parse(name, parseDuration);
      && r.Some? && r.value.Cron?
      && (r.value.spec.Matches(x) <==>
          && SecondOf(x) == 0 && MinuteOf(x) == 0 && (midnight ==> HourOf(x) == 0)
          && (first ==> Day(x) == 1) && (january ==> Month(x) == 1) && (sunday ==> Weekday(x) == 0))
  {
    var at, text := Row(midnight, first, january, sunday), RowString(midnight, first, january, sunday);
    DigitsSay(at);
    assert "0 0 " == "0" + " " + "0" + " ";
    RowText(text, at);
    DescriptorSays(name, text, DigitsOf(at), at, parseDuration, x);
  }

  lemma RowStrings()
    ensures RowString(true, true, true, false) == "0 0 0 1 1 *"
    ensures RowString(true, true, false, false) == "0 0 0 1 * *"
    ensures RowString(true, false, false, true) == "0 0 0 * * 0"
    ensures RowString(true, false, false, false) == "0 0 0 * * *"
    ensures RowString(false, false, false, false) == "0 0 * * * *"
  {
  }

  lemma Table(name: string)
    requires name in DESCRIPTORS
    ensures LooksPredefined(name)
    ensures var yearly := name in {"@yearly", "@annually"};
      IsDescriptor(name, RowString(name != "@hourly", yearly || name == "@monthly", yearly, name == "@weekly"))
  {
    RowStrings();
  }

  lemma Names(name: string)
    ensures name in DESCRIPTORS <==>
      name in {"@yearly", "@annually", "@monthly", "@weekly", "@daily", "@midnight", "@hourly"}
  {
  }

  /** When the predefined schedules fire. */
  lemma DescriptorFires(name: string, parseDuration: string -> Option<int>, x: nat)
    requires name in {"@yearly", "@annually", "@monthly", "@weekly", "@daily", "@midnight", "@hourly"}
    ensures var r := Parse(name, parseDuration);
      && r.Some? && r.value.Cron?
      && (r.value.spec.Matches(x) <==>
          && SecondOf(x) == 0 && MinuteOf(x) == 0
          && (name != "@hourly" ==> HourOf(x) == 0)
          && (name == "@weekly" ==> Weekday(x) == 0)
          && (name == "@monthly" ==> Day(x) == 1)
          && (name in {"@yearly", "@annually"} ==> Day(x) == 1 && Month(x) == 1))
  {
    var yearly := name in {"@yearly", "@annually"};
    Names(name);
    Table(name);
    RowFires(name, name != "@hourly", yearly || name == "@monthly", yearly, name == "@weekly", parseDuration, x);
  }

  /** Any other text that starts with the at sign is rejected, unless it is an interval. */
  lemma UnknownDescriptor(text: string, parseDuration: string -> Option<int>)
    requires TrimSpace(text) != "" && TrimSpace(text)[0] == '@' && !("@every " <= TrimSpace(text))
    ensures Parse(text, parseDuration).Some? <==>
      TrimSpace(text) in {"@yearly", "@annually", "@monthly", "@weekly", "@daily", "@midnight", "@hourly"}
  {
    var name := TrimSpace(text);
    Names(name);
    if name in DESCRIPTORS {
      Table(name);
      NothingToTrim(name);
      DescriptorFires(name, parseDuration, 0);
    }
  }

  /** `@every` and a positive duration, in whole seconds but at least one. */
  lemma EveryParsed(text: string, parseDuration: string -> Option<int>)
    requires text != "" && !IsSpace(text[0]) && !IsSpace(text[|text| - 1])
    ensures var r, d := Parse("@every " + text, parseDuration), parseDuration(text);
      && (r.Some? <==> d.Some? && d.value > 0)
      && (r.Some? ==> r.value == Interval(Every(d.value)))
  {
    var spec := "@every " + text;
    NothingToTrim(spec);
    NothingToTrim(text);
    assert EVERY <= spec && spec[|EVERY|..] == text;
  }

  // Names.

  /** January is month 1, ..., December month 12, in capitals, small letters or both. */
  lemma MonthTable(k: nat, text: string)
    requires k < 12
    requires ToLower(text)
          == ["jan", "feb", "mar", "apr", "may", "jun", "jul", "aug", "sep", "oct", "nov", "dec"][k]
    ensures ParseValue(text, MONTHS) == Some(k + 1)
  {
  }

  /** Sunday is weekday 0, ..., Saturday weekday 6. */
  lemma WeekdayTable(k: nat, text: string)
    requires k < 7
    requires ToLower(text) == ["sun", "mon", "tue", "wed", "thu", "fri", "sat"][k]
    ensures ParseValue(text, DOW) == Some(k)
  {
  }
}
