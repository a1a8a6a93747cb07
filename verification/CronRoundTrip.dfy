/** The grammar of fields: writing a field down and reading it back. */
module CronRoundTrip {
  import opened Text
  import opened CronSchedule
  import opened CronField

  /** A value: digits, or a name in any mixture of upper and lower case. */
  datatype Value = Numeral(text: string) | Name(text: string)

  datatype Range = Star | Question | Single(value: Value) | Between(lo: Value, hi: Value)

  /** The syntax of a term: what it ranges over and the digits of its step, if it has one. */
  datatype TermSyntax = TermSyntax(range: Range, step: Option<string>)

  predicate IsNumeral(s: string) {
    s != "" && AllDigits(s)
  }

  /** Numerals are digits, and names are names of the field. */
  predicate SpelledValue(v: Value, b: Bounds) {
    match v
    case Numeral(s) => IsNumeral(s)
    case Name(s) => ToLower(s) in b.names
  }

  predicate Spelled(t: TermSyntax, b: Bounds) {
    && (t.step.Some? ==> IsNumeral(t.step.value))
    && (t.range.Single? ==> SpelledValue(t.range.value, b))
    && (t.range.Between? ==> SpelledValue(t.range.lo, b) && SpelledValue(t.range.hi, b))
  }

  function RenderRange(r: Range): string {
    match r
    case Star => "*"
    case Question => "?"
    case Single(v) => v.text
    case Between(lo, hi) => lo.text + ['-'] + hi.text
  }

  function Render(t: TermSyntax): string {
    RenderRange(t.range) + (if t.step.Some? then ['/'] + t.step.value else "")
  }

  function ValueOf(v: Value, b: Bounds): nat
    requires SpelledValue(v, b)
  {
    match v
    case Numeral(s) => Digits(s)
    case Name(s) => b.names[ToLower(s)]
  }

  /** The term it means: a single value with a step goes up to the end of the field's range. */
  function Meaning(t: TermSyntax, b: Bounds): Term
    requires Spelled(t, b)
  {
    var step := if t.step.Some? then Digits(t.step.value) else 1;
    match t.range
    case Single(v) => Term(ValueOf(v, b), if t.step.Some? then b.max else ValueOf(v, b), step, false)
    case Between(lo, hi) => Term(ValueOf(lo, b), ValueOf(hi, b), step, false)
    case _ => Term(b.min, b.max, step, t.step.None?)
  }

  /** Names are made of small letters, and stand for values of the field. */
  predicate ProperNames(b: Bounds) {
    forall name | name in b.names ::
      name != "" && b.names[name] <= b.max && forall i | 0 <= i < |name| :: 'a' <= name[i] <= 'z'
  }

  predicate ThreeLetters(s: string) {
    |s| == 3 && 'a' <= s[0] <= 'z' && 'a' <= s[1] <= 'z' && 'a' <= s[2] <= 'z'
  }

  lemma ThreeLettersAreProper(b: Bounds)
    requires forall name | name in b.names :: ThreeLetters(name) && b.names[name] <= b.max
    ensures ProperNames(b)
  {
  }

  lemma MonthName(name: string)
    requires name in MONTH_NAMES
    ensures ThreeLetters(name) && MONTH_NAMES[name] <= 12
  {
  }

  lemma WeekdayName(name: string)
    requires name in DOW_NAMES
    ensures ThreeLetters(name) && DOW_NAMES[name] <= 6
  {
  }

  lemma NamesAreProper()
    ensures ProperNames(SECONDS) && ProperNames(MINUTES) && ProperNames(HOURS) && ProperNames(DOM)
    ensures ProperNames(MONTHS) && ProperNames(DOW)
  {
    forall name | name in MONTHS.names
      ensures ThreeLetters(name) && MONTHS.names[name] <= MONTHS.max
    {
      MonthName(name);
    }
    ThreeLettersAreProper(MONTHS);
    forall name | name in DOW.names
      ensures ThreeLetters(name) && DOW.names[name] <= DOW.max
    {
      WeekdayName(name);
    }
    ThreeLettersAreProper(DOW);
  }

  /** A numeral is not a name, and neither has a mark in it. */
  lemma ReadValue(v: Value, b: Bounds)
    requires ProperNames(b) && b.max < WORD && SpelledValue(v, b)
    ensures ParseValue(v.text, b) == if ValueOf(v, b) < WORD then Some(ValueOf(v, b)) else None
    ensures v.text != "" && forall c | c in v.text :: c != '-' && c != '/' && c != ',' && c != '*' && c != '?'
  {
    var lower := ToLower(v.text);
    assert |lower| == |v.text|;
    if v.Numeral? {
      assert lower[0] == v.text[0];
    }
    forall i | 0 <= i < |v.text|
      ensures v.text[i] !in "-/,*?"
    {
      assert lower[i] == LowerChar(v.text[i]);
    }
  }

  lemma NoMark(t: TermSyntax, b: Bounds)
    requires ProperNames(b) && b.max < WORD && Spelled(t, b)
    ensures '/' !in RenderRange(t.range) && ',' !in Render(t)
  {
    match t.range
    case Single(v) => ReadValue(v, b);
    case Between(lo, hi) =>
      ReadValue(lo, b);
      ReadValue(hi, b);
    case _ =>
  }

  /** The step begins after the first slash. */
  lemma SlashOf(t: TermSyntax, b: Bounds)
    requires ProperNames(b) && b.max < WORD && Spelled(t, b)
    ensures var text, head := Render(t), RenderRange(t.range);
      && IndexOf(text, '/') == |head| <= |text| && text[..|head|] == head
      && (|head| < |text| <==> t.step.Some?) && (t.step.Some? ==> text[|head| + 1..] == t.step.value)
  {
    var head := RenderRange(t.range);
    NoMark(t, b);
    if t.step.Some? {
      var tail := t.step.value;
      assert Render(t) == head + ['/'] + tail;
      IndexOfAfter(head, '/', tail);
    } else {
      assert Render(t) == head;
      IndexOfAbsent(head, '/');
    }
  }

  /** A term is read back as what it means, or rejected if that is out of bounds. */
  lemma ReadRendered(t: TermSyntax, b: Bounds)
    requires ProperNames(b) && b.max < WORD && Spelled(t, b)
    ensures ReadTerm(Render(t), b) ==
      if ValidTerm(Meaning(t, b), b) then Some(Meaning(t, b)) else None
  {
    SlashOf(t, b);
    ReadRenderedRange(t, b);
    ReadSplit(t, Render(t), RenderRange(t.range), b);
  }

  lemma ReadSplit(t: TermSyntax, text: string, head: string, b: Bounds)
    requires b.max < WORD && Spelled(t, b)
    requires IndexOf(text, '/') == |head| <= |text| && text[..|head|] == head
    requires (|head| < |text| <==> t.step.Some?) && (t.step.Some? ==> text[|head| + 1..] == t.step.value)
    requires var read, m := ReadRange(head, t.step.Some?, b), Meaning(t, b);
      && (read.Some? ==> read.value == (m.lo, m.hi))
      && (m.lo <= b.max && m.hi <= b.max ==> read.Some?)
    requires head == "*" || head == "?" <==> t.range.Star? || t.range.Question?
    ensures ReadTerm(text, b) == if ValidTerm(Meaning(t, b), b) then Some(Meaning(t, b)) else None
  {
  }

  lemma ReadRenderedRange(t: TermSyntax, b: Bounds)
    requires ProperNames(b) && b.max < WORD && Spelled(t, b)
    ensures var read, m := ReadRange(RenderRange(t.range), t.step.Some?, b), Meaning(t, b);
      && (read.Some? ==> read.value == (m.lo, m.hi))
      && (m.lo <= b.max && m.hi <= b.max ==> read.Some?)
      && (RenderRange(t.range) == "*" || RenderRange(t.range) == "?" <==> t.range.Star? || t.range.Question?)
  {
    match t.range
    case Single(v) =>
      ReadValue(v, b);
      assert v.text[0] in v.text;
    case Between(lo, hi) =>
      var text := lo.text + ['-'] + hi.text;
      ReadValue(lo, b);
      ReadValue(hi, b);
      IndexOfAfter(lo.text, '-', hi.text);
      assert text[|lo.text|] == '-';
      assert text[..|lo.text|] == lo.text && text[|lo.text| + 1..] == hi.text;
    case _ =>
  }

  // What the forms of a term permit.

  /** Without a step: everything and the star bit, one value, or a range. */
  lemma PlainTermMeans(t: TermSyntax, b: Bounds, v: nat)
    requires Spelled(t, b) && b.max < STAR_BIT && ValidTerm(Meaning(t, b), b) && t.step.None?
    ensures t.range.Star? || t.range.Question? ==>
      (v in TermMask(Meaning(t, b)) <==> b.min <= v <= b.max || v == 63)
    ensures t.range.Single? ==> (v in TermMask(Meaning(t, b)) <==> v == ValueOf(t.range.value, b))
    ensures t.range.Between? ==>
      (v in TermMask(Meaning(t, b)) <==> ValueOf(t.range.lo, b) <= v <= ValueOf(t.range.hi, b))
  {
    StepsUp(Meaning(t, b).lo, Meaning(t, b).hi, 1, v);
  }

  ghost predicate EveryNth(v: nat, first: nat, last: nat, n: nat) {
    n > 0 && first <= v <= last && (v - first) % n == 0
  }

  /** With a step: every so many values of all, from a value on, or of a range, if the first step does not wrap. */
  lemma SteppedTermMeans(t: TermSyntax, b: Bounds, v: nat)
    requires Spelled(t, b) && b.max < STAR_BIT && ValidTerm(Meaning(t, b), b) && t.step.Some?
    requires Meaning(t, b).lo + Digits(t.step.value) < WORD
    ensures var permitted, n := v in TermMask(Meaning(t, b)), Digits(t.step.value);
      && (t.range.Star? || t.range.Question? ==> (permitted <==> EveryNth(v, b.min, b.max, n)))
      && (t.range.Single? ==> (permitted <==> EveryNth(v, ValueOf(t.range.value, b), b.max, n)))
      && (t.range.Between? ==> (permitted <==> EveryNth(v, ValueOf(t.range.lo, b), ValueOf(t.range.hi, b), n)))
  {
    TermDenotesProgressionIff(Meaning(t, b), b);
    ProgressionTerm(Meaning(t, b), v);
  }

  lemma ProgressionTerm(m: Term, v: nat)
    requires m.lo < WORD && m.hi < STAR_BIT && 0 < m.step < WORD && !m.star
    requires forall w :: w in StepBits(m.lo, m.hi, m.step) <==> InProgression(w, m.lo, m.hi, m.step)
    ensures v in TermMask(m) <==> EveryNth(v, m.lo, m.hi, m.step)
  {
  }

  // Nothing else is accepted.

  lemma ReadsValue(s: string, b: Bounds) returns (v: Value)
    requires ParseValue(s, b).Some?
    ensures SpelledValue(v, b) && v.text == s
  {
    v := if ToLower(s) in b.names then Name(s) else Numeral(s);
  }

  lemma ReadsRange(text: string, hasStep: bool, b: Bounds) returns (r: Range)
    requires ReadRange(text, hasStep, b).Some?
    ensures Spelled(TermSyntax(r, None), b) && RenderRange(r) == text
  {
    if text == "*" {
      r := Star;
    } else if text == "?" {
      r := Question;
    } else if '-' in text {
      var dash := IndexOf(text, '-');
      var lo := ReadsValue(text[..dash], b);
      var hi := ReadsValue(text[dash + 1..], b);
      assert text == text[..dash] + ['-'] + text[dash + 1..];
      r := Between(lo, hi);
    } else {
      var v := ReadsValue(text, b);
      r := Single(v);
    }
  }

  /** Every accepted text is a term of the grammar, read as what it means. */
  lemma AcceptedIsTerm(text: string, b: Bounds) returns (t: TermSyntax)
    requires ProperNames(b) && b.max < WORD && ReadTerm(text, b).Some?
    ensures Spelled(t, b) && Render(t) == text && ReadTerm(text, b).value == Meaning(t, b)
  {
    t := ReadsTerm(text, b);
    ReadRendered(t, b);
  }

  lemma ReadsTerm(text: string, b: Bounds) returns (t: TermSyntax)
    requires ReadTerm(text, b).Some?
    ensures Spelled(t, b) && Render(t) == text
  {
    var slash := IndexOf(text, '/');
    ReadsParts(text, b);
    var r := ReadsRange(text[..slash], slash < |text|, b);
    t := Assemble(text, slash, r, b);
  }

  lemma ReadsParts(text: string, b: Bounds)
    requires ReadTerm(text, b).Some?
    ensures var slash := IndexOf(text, '/');
      && ReadRange(text[..slash], slash < |text|, b).Some?
      && (slash < |text| ==> IsNumeral(text[slash + 1..]))
  {
  }

  lemma Assemble(text: string, slash: nat, r: Range, b: Bounds) returns (t: TermSyntax)
    requires slash <= |text| && Spelled(TermSyntax(r, None), b) && RenderRange(r) == text[..slash]
    requires slash < |text| ==> text[slash] == '/' && IsNumeral(text[slash + 1..])
    ensures Spelled(t, b) && Render(t) == text
  {
    if slash < |text| {
      t := TermSyntax(r, Some(text[slash + 1..]));
      assert text == text[..slash] + ['/'] + text[slash + 1..];
    } else {
      t := TermSyntax(r, None);
      assert text[..slash] == text;
    }
  }

  // Whole fields.

  ghost predicate AllSpelled(ts: seq<TermSyntax>, b: Bounds) {
    forall k | 0 <= k < |ts| :: Spelled(ts[k], b)
  }

  function RenderAll(ts: seq<TermSyntax>): (texts: seq<string>)
    ensures |texts| == |ts| && forall i | 0 <= i < |ts| :: texts[i] == Render(ts[i])
  {
    if ts == [] then [] else [Render(ts[0])] + RenderAll(ts[1..])
  }

  function RenderField(ts: seq<TermSyntax>): string
    requires |ts| > 0
  {
    Join(RenderAll(ts), ',')
  }

  /**
   A rendered field is accepted exactly when all its terms are in range, and then its mask
   holds exactly the values its terms mean.
   */
  lemma FieldRoundTrip(ts: seq<TermSyntax>, b: Bounds)
    requires |ts| > 0 && ProperNames(b) && b.max < STAR_BIT && AllSpelled(ts, b)
    ensures var r := FieldMask(Split(RenderField(ts), ','), b);
      && (r.Some? <==> forall k | 0 <= k < |ts| :: ValidTerm(Meaning(ts[k], b), b))
      && (r.Some? ==> forall v :: v in r.value <==>
                                  exists k :: 0 <= k < |ts| && v in TermMask(Meaning(ts[k], b)))
  {
    var texts := RenderAll(ts);
    forall p | p in texts
      ensures ',' !in p
    {
      var k :| 0 <= k < |ts| && texts[k] == p;
      NoMark(ts[k], b);
    }
    SplitJoin(texts, ',');
    forall k | 0 <= k < |ts|
      ensures ReadTerm(texts[k], b) == if ValidTerm(Meaning(ts[k], b), b) then Some(Meaning(ts[k], b)) else None
    {
      ReadRendered(ts[k], b);
    }
    FieldAcceptedIff(texts, b);
    if FieldMask(texts, b).Some? {
      forall v
        ensures v in FieldMask(texts, b).value <==>
                exists k :: 0 <= k < |ts| && v in TermMask(Meaning(ts[k], b))
      {
        FieldIsUnion(texts, b, v);
      }
    }
  }
}
