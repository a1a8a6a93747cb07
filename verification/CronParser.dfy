/** Assembling a schedule from a cron expression, and the fixed-interval schedule. */
module CronParser {
  import opened Text
  import opened CronSchedule
  import opened CronField
  import opened CronTotality

  datatype AnySchedule =
    | Cron(spec: SpecSchedule)
    | Interval(delay: nat)

  /** A fixed interval is a whole number of seconds, at least one. */
  type Schedule = sch: AnySchedule
    | sch.Interval? ==> SECOND <= sch.delay && sch.delay % SECOND == 0
    witness Interval(SECOND)

  // Fixed intervals.

  /** `Every`: whole seconds, at least one. */
  function Every(d: int): (delay: nat)
    ensures SECOND <= delay && delay % SECOND == 0
    ensures delay <= d < delay + SECOND || (d < SECOND && delay == SECOND)
  {
    var d' := if d < SECOND then SECOND else d;
    d' - d' % SECOND
  }

  /** `ConstantDelaySchedule.Next`. */
  function NextInterval(delay: nat, t: Time): Time
    requires SECOND <= delay
  {
    t + delay - t % SECOND
  }

  /** The first activation is `delay` after the second t falls in; after that they are `delay` apart. */
  lemma IntervalSpacing(delay: nat, t: Time)
    requires SECOND <= delay && delay % SECOND == 0
    ensures var n := NextInterval(delay, t);
      && n == t / SECOND * SECOND + delay
      && t < n <= t + delay && n % SECOND == 0
      && NextInterval(delay, n) == n + delay
  {
  }

  /** `Schedule.Next`. */
  function NextOf(sch: Schedule, t: Time): Time {
    match sch
    case Cron(s) => NextActivation(s, t)
    case Interval(delay) => NextInterval(delay, t)
  }

  // Field expressions.

  /** `normalizeDow`: Sunday written as 7 becomes 0. */
  function NormalizeDow(mask: Mask): Mask {
    if 7 in mask then mask - {7} + {0} else mask
  }

  function Compile(field: string, b: Bounds): Option<Mask>
    requires b.max < STAR_BIT
  {
    FieldMask(Split(field, ','), b)
  }

  /** The schedule six fields spell, seconds first. */
  function SixFields(f: seq<string>): Option<SpecSchedule>
    requires |f| == 6
  {
    var second :- Compile(f[0], SECONDS);
    var minute :- Compile(f[1], MINUTES);
    var hour :- Compile(f[2], HOURS);
    var dom :- Compile(f[3], DOM);
    var month :- Compile(f[4], MONTHS);
    var dow :- Compile(f[5], DOW);
    Some(SpecSchedule(second, minute, hour, dom, month, NormalizeDow(dow)))
  }

  function ScheduleOf(fields: seq<string>): Option<SpecSchedule> {
    if |fields| == 5 then SixFields(["0"] + fields)
    else if |fields| == 6 then SixFields(fields)
    else None
  }

  /** `parseFields`. */
  method ParseFields(fields: seq<string>) returns (r: Option<SpecSchedule>)
    ensures r == ScheduleOf(fields)
  {
    var f := fields;
    if |fields| == 5 {
      f := ["0"] + fields;
    } else if |fields| != 6 {
      return None;
    }
    var second :- ParseField(f[0], SECONDS);
    var minute :- ParseField(f[1], MINUTES);
    var hour :- ParseField(f[2], HOURS);
    var dom :- ParseField(f[3], DOM);
    var month :- ParseField(f[4], MONTHS);
    var dow :- ParseField(f[5], DOW);
    return Some(SpecSchedule(second, minute, hour, dom, month, NormalizeDow(dow)));
  }

  /** No day-of-week mask the parser builds has bit 7, so folding Sunday changes nothing. */
  lemma DowAlreadyNormal(field: string)
    ensures var mask := Compile(field, DOW); mask.Some? ==> NormalizeDow(mask.value) == mask.value
  {
    if Compile(field, DOW).Some? {
      AcceptedField(Split(field, ','), DOW);
    }
  }

  /** Whatever the parser accepts is a schedule whose every field can be met. */
  lemma ParsedIsAccepted(fields: seq<string>)
    requires ScheduleOf(fields).Some?
    ensures Accepted(ScheduleOf(fields).value)
  {
    var f := if |fields| == 5 then ["0"] + fields else fields;
    AcceptedField(Split(f[0], ','), SECONDS);
    AcceptedField(Split(f[1], ','), MINUTES);
    AcceptedField(Split(f[2], ','), HOURS);
    AcceptedField(Split(f[3], ','), DOM);
    AcceptedField(Split(f[4], ','), MONTHS);
    AcceptedField(Split(f[5], ','), DOW);
    DowAlreadyNormal(f[5]);
  }

  /**
   An accepted expression fires again from every instant exactly when its day of week is not
   an unrestricted `*`, or it permits some date of a common year.
   */
  lemma ParsedNeverZeroIff(fields: seq<string>)
    requires ScheduleOf(fields).Some?
    ensures var s := ScheduleOf(fields).value;
      (forall t: Time :: NextActivation(s, t) != 0) <==> STAR_BIT !in s.dow || PermitsCommonDate(s)
  {
    ParsedIsAccepted(fields);
    NeverZeroIff(ScheduleOf(fields).value);
  }

  // Whole expressions.

  const DESCRIPTORS: map<string, string> := map[
    "@yearly" := "0 0 0 1 1 *", "@annually" := "0 0 0 1 1 *", "@monthly" := "0 0 0 1 * *",
    "@weekly" := "0 0 0 * * 0", "@daily" := "0 0 0 * * *", "@midnight" := "0 0 0 * * *",
    "@hourly" := "0 0 * * * *"]

  const EVERY := "@every "

  function FieldSchedule(fields: seq<string>): Option<Schedule> {
    var s :- ScheduleOf(fields);
    Some(Cron(s))
  }

  /** `Parse`.  Go's duration notation is read by the parameter. */
  function Parse(text: string, parseDuration: string -> Option<int>): Option<Schedule> {
    var spec := TrimSpace(text);
    if spec == "" then None
    else if spec[0] == '@' then
      if EVERY <= spec then
        var d :- parseDuration(TrimSpace(spec[|EVERY|..]));
        if d <= 0 then None else Some(Interval(Every(d)))
      else if spec in DESCRIPTORS then FieldSchedule(Fields(DESCRIPTORS[spec]))
      else None
    else FieldSchedule(Fields(spec))
  }

  /** Every cron schedule `Parse` returns is accepted in the sense above. */
  lemma ParseGivesAccepted(text: string, parseDuration: string -> Option<int>)
    ensures var r := Parse(text, parseDuration);
      r.Some? && r.value.Cron? ==> Accepted(r.value.spec)
  {
    var spec := TrimSpace(text);
    if Parse(text, parseDuration).Some? {
      if spec[0] != '@' {
        ParsedIsAccepted(Fields(spec));
      } else if !(EVERY <= spec) {
        ParsedIsAccepted(Fields(DESCRIPTORS[spec]));
      }
    }
  }

  /** An expression of fields separated by blanks is read field by field. */
  lemma ParseJoined(fields: seq<string>, parseDuration: string -> Option<int>)
    requires AllWords(fields) && !("@" <= fields[0])
    ensures Parse(Join(fields, ' '), parseDuration) == FieldSchedule(fields)
  {
    JoinedText(fields);
    ParsePlain(Join(fields, ' '), parseDuration);
  }

  lemma ParsePlain(text: string, parseDuration: string -> Option<int>)
    requires TrimSpace(text) == text && text != "" && text[0] != '@'
    ensures Parse(text, parseDuration) == FieldSchedule(Fields(text))
  {
  }

  /** White space around an expression does not matter. */
  lemma ParseSurrounded(l: string, text: string, r: string, parseDuration: string -> Option<int>)
    requires AllSpace(l) && AllSpace(r)
    ensures Parse(l + text + r, parseDuration) == Parse(text, parseDuration)
  {
    TrimSurrounded(l, text, r);
  }
}
