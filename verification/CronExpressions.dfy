/** Whole expressions: which field says what, and what the descriptors stand for. */
module CronExpressions {
  import opened Text
  import opened CronSchedule
  import opened CronField
  import opened CronRoundTrip
  import opened CronParser

  /** A field that is one term. */
  lemma OneTerm(t: TermSyntax, b: Bounds)
    requires ProperNames(b) && b.max < STAR_BIT && Spelled(t, b)
    ensures Compile(Render(t), b) == if ValidTerm(Meaning(t, b), b) then Some(TermMask(Meaning(t, b))) else None
  {
    var text := Render(t);
    NoMark(t, b);
    IndexOfAbsent(text, ',');
    ReadRendered(t, b);
    OneTermField(text, b);
  }

  lemma OneTermField(text: string, b: Bounds)
    requires b.max < STAR_BIT && Split(text, ',') == [text]
    ensures Compile(text, b) == if ReadTerm(text, b).Some? then Some(TermMask(ReadTerm(text, b).value)) else None
  {
    var terms := [text];
    assert terms[1..] == [];
    assert FieldMask([], b) == Some({});
    FieldMaskStep(terms, b);
    if ReadTerm(text, b).Some? {
      assert TermMask(ReadTerm(text, b).value) + {} == TermMask(ReadTerm(text, b).value);
    }
  }

  lemma OneNumber(text: string, b: Bounds)
    requires ProperNames(b) && b.max < STAR_BIT && IsNumeral(text)
    ensures Compile(text, b) == if b.min <= Digits(text) <= b.max then Some({Digits(text)}) else None
  {
    var t := TermSyntax(Single(Numeral(text)), None);
    OneTerm(t, b);
    assert Render(t) == text;
    if b.min <= Digits(text) <= b.max {
      OneStepOnly(Digits(text));
    }
  }

  lemma OneStepOnly(n: nat)
    requires n < STAR_BIT
    ensures StepBits(n, n, 1) == {n}
  {
    assert StepBits(n + 1, n, 1) == {};
  }

  ghost predicate Unrestricted(text: string, b: Bounds)
    requires b.max < STAR_BIT
  {
    Compile(text, b).Some? && STAR_BIT in Compile(text, b).value
  }

  lemma StarField(b: Bounds)
    requires ProperNames(b) && b.min <= b.max < STAR_BIT
    ensures Unrestricted(RenderRange(Star), b)
  {
    var t := TermSyntax(Star, None);
    OneTerm(t, b);
    assert Render(t) == RenderRange(Star);
  }

  ghost predicate Spells(text: string, n: nat) {
    IsNumeral(text) && Digits(text) == n
  }

  lemma Numerals()
    ensures Spells("0", 0) && Spells("2", 2) && Spells("7", 7) && Spells("30", 30)
  {
    assert Digits("") == 0 && "30"[..1] == "3" && "3"[..0] == "" && Digits("3") == 3;
  }

  /** A number in one of the six fields. */
  lemma FieldNumber(text: string, n: nat, b: Bounds)
    requires b == SECONDS || b == MINUTES || b == HOURS || b == DOM || b == MONTHS || b == DOW
    requires Spells(text, n)
    ensures Compile(text, b) == if b.min <= n <= b.max then Some({n}) else None
  {
    NamesAreProper();
    OneNumber(text, b);
  }

  // Expressions of rendered fields.

  /** The fields of an expression in order. */
  function Field(i: nat): Bounds
    requires i < 6
  {
    match i
    case 0 => SECONDS
    case 1 => MINUTES
    case 2 => HOURS
    case 3 => DOM
    case 4 => MONTHS
    case 5 => DOW
  }

  lemma FieldRanges()
    ensures Field(0).min == 0 && Field(0).max == 59 && Field(1).min == 0 && Field(1).max == 59
    ensures Field(2).min == 0 && Field(2).max == 23 && Field(3).min == 1 && Field(3).max == 31
    ensures Field(4).min == 1 && Field(4).max == 12 && Field(5).min == 0 && Field(5).max == 6
  {
  }

  lemma FieldsAreProper(i: nat)
    requires i < 6
    ensures ProperNames(Field(i)) && Field(i).min <= Field(i).max < STAR_BIT
  {
    NamesAreProper();
    BoundsAreProper(Field(i));
  }

  lemma BoundsAreProper(b: Bounds)
    requires b == SECONDS || b == MINUTES || b == HOURS || b == DOM || b == MONTHS || b == DOW
    requires ProperNames(SECONDS) && ProperNames(MINUTES) && ProperNames(HOURS) && ProperNames(DOM)
    requires ProperNames(MONTHS) && ProperNames(DOW)
    ensures ProperNames(b) && b.min <= b.max < STAR_BIT
  {
  }

  /** The i-th of n fields; with five, the seconds are left out. */
  function Position(n: nat, i: nat): Bounds
    requires (n == 5 || n == 6) && i < n
  {
    Field(i + 6 - n)
  }

  /** Lists of terms for the fields of an expression. */
  ghost predicate WellSpelled(terms: seq<seq<TermSyntax>>) {
    && (|terms| == 5 || |terms| == 6)
    && forall i | 0 <= i < |terms| :: |terms[i]| > 0 && AllSpelled(terms[i], Position(|terms|, i))
  }

  ghost predicate AllValid(ts: seq<TermSyntax>, b: Bounds)
    requires AllSpelled(ts, b)
  {
    forall k | 0 <= k < |ts| :: ValidTerm(Meaning(ts[k], b), b)
  }

  /** Some term of the field means v. */
  ghost predicate Means(ts: seq<TermSyntax>, b: Bounds, v: nat)
    requires AllSpelled(ts, b) && AllValid(ts, b) && b.max < STAR_BIT
  {
    exists k :: 0 <= k < |ts| && v in TermMask(Meaning(ts[k], b))
  }

  function RenderFields(terms: seq<seq<TermSyntax>>): (fields: seq<string>)
    requires forall i | 0 <= i < |terms| :: |terms[i]| > 0
    ensures |fields| == |terms| && forall i | 0 <= i < |terms| :: fields[i] == RenderField(terms[i])
  {
    seq(|terms|, i requires 0 <= i < |terms| => RenderField(terms[i]))
  }

  /** The field's mask holds what its terms mean. */
  ghost predicate MaskMeans(mask: Mask, ts: seq<TermSyntax>, b: Bounds)
    requires AllSpelled(ts, b) && AllValid(ts, b) && b.max < STAR_BIT
  {
    forall v :: v in mask <==> Means(ts, b, v)
  }

  lemma FieldCompiles(ts: seq<TermSyntax>, b: Bounds)
    requires |ts| > 0 && ProperNames(b) && b.max < STAR_BIT && AllSpelled(ts, b)
    ensures Compile(RenderField(ts), b).Some? <==> AllValid(ts, b)
    ensures AllValid(ts, b) ==> MaskMeans(Compile(RenderField(ts), b).value, ts, b)
  {
    FieldRoundTrip(ts, b);
  }

  // Rendered fields are words.

  predicate Plain(c: char) {
    !IsSpace(c) && c != '@'
  }

  predicate AllPlain(s: string) {
    forall i | 0 <= i < |s| :: Plain(s[i])
  }

  lemma PlainValue(v: Value, b: Bounds)
    requires ProperNames(b) && SpelledValue(v, b)
    ensures AllPlain(v.text) && v.text != ""
  {
    var lower := ToLower(v.text);
    assert |lower| == |v.text|;
    forall i | 0 <= i < |v.text|
      ensures Plain(v.text[i])
    {
      assert lower[i] == LowerChar(v.text[i]);
    }
  }

  lemma PlainTerm(t: TermSyntax, b: Bounds)
    requires ProperNames(b) && Spelled(t, b)
    ensures AllPlain(Render(t)) && Render(t) != ""
  {
    match t.range
    case Single(v) => PlainValue(v, b);
    case Between(lo, hi) =>
      PlainValue(lo, b);
      PlainValue(hi, b);
    case _ =>
  }

  lemma {:induction false} PlainJoin(parts: seq<string>)
    requires |parts| > 0 && forall i | 0 <= i < |parts| :: AllPlain(parts[i]) && parts[i] != ""
    ensures AllPlain(Join(parts, ',')) && Join(parts, ',') != ""
  {
    if |parts| > 1 {
      PlainJoin(parts[1..]);
    }
  }

  lemma FieldIsWord(ts: seq<TermSyntax>, b: Bounds)
    requires |ts| > 0 && ProperNames(b) && AllSpelled(ts, b)
    ensures IsWord(RenderField(ts)) && !("@" <= RenderField(ts))
  {
    var parts := RenderAll(ts);
    forall k | 0 <= k < |ts|
      ensures AllPlain(parts[k]) && parts[k] != ""
    {
      PlainTerm(ts[k], b);
    }
    PlainJoin(parts);
    assert Plain(RenderField(ts)[0]);
  }

  lemma FieldsAreWords(terms: seq<seq<TermSyntax>>)
    requires WellSpelled(terms)
    ensures AllWords(RenderFields(terms)) && !("@" <= RenderFields(terms)[0])
  {
    forall i | 0 <= i < |terms|
      ensures IsWord(RenderFields(terms)[i]) && !("@" <= RenderFields(terms)[i])
    {
      FieldsAreProper(i + 6 - |terms|);
      FieldIsWord(terms[i], Position(|terms|, i));
    }
  }

  // Six fields.

  /** Every field is valid in its place. */
  ghost predicate AllFieldsValid(terms: seq<seq<TermSyntax>>)
    requires WellSpelled(terms)
  {
    forall i | 0 <= i < |terms| :: AllValid(terms[i], Position(|terms|, i))
  }

  lemma CompileAt(terms: seq<seq<TermSyntax>>, i: nat, b: Bounds)
    requires WellSpelled(terms) && i < |terms| && b == Position(|terms|, i)
    ensures b.max < STAR_BIT
    ensures Compile(RenderFields(terms)[i], b).Some? <==> AllValid(terms[i], b)
    ensures AllValid(terms[i], b) ==> MaskMeans(Compile(RenderFields(terms)[i], b).value, terms[i], b)
  {
    FieldsAreProper(i + 6 - |terms|);
    FieldCompiles(terms[i], b);
  }

  /** The schedule says field by field what the terms mean; with five fields the second is 0. */
  ghost predicate SaysTerms(s: SpecSchedule, terms: seq<seq<TermSyntax>>)
    requires WellSpelled(terms) && AllFieldsValid(terms)
  {
    var o := |terms| - 5;
    && MaskMeans(s.minute, terms[o], Field(1))
    && MaskMeans(s.hour, terms[o + 1], Field(2))
    && MaskMeans(s.dom, terms[o + 2], Field(3))
    && MaskMeans(s.month, terms[o + 3], Field(4))
    && MaskMeans(s.dow, terms[o + 4], Field(5))
    && (if o == 1 then MaskMeans(s.second, terms[0], Field(0)) else s.second == {0})
  }

  /** Six fields compile one by one. */
  lemma SixParts(f: seq<string>)
    requires |f| == 6
    ensures SixFields(f).Some? <==>
      && Compile(f[0], SECONDS).Some? && Compile(f[1], MINUTES).Some? && Compile(f[2], HOURS).Some?
      && Compile(f[3], DOM).Some? && Compile(f[4], MONTHS).Some? && Compile(f[5], DOW).Some?
    ensures SixFields(f).Some? ==>
      var s := SixFields(f).value;
      && s.second == Compile(f[0], SECONDS).value && s.minute == Compile(f[1], MINUTES).value
      && s.hour == Compile(f[2], HOURS).value && s.dom == Compile(f[3], DOM).value
      && s.month == Compile(f[4], MONTHS).value && s.dow == Compile(f[5], DOW).value
  {
    DowAlreadyNormal(f[5]);
  }

  /** The text compiles for the bounds exactly if the terms are valid, to what they mean. */
  ghost predicate CompilesTo(text: string, ts: seq<TermSyntax>, b: Bounds)
    requires AllSpelled(ts, b) && b.max < STAR_BIT
  {
    && (Compile(text, b).Some? <==> AllValid(ts, b))
    && (AllValid(ts, b) ==> MaskMeans(Compile(text, b).value, ts, b))
  }

  ghost predicate AllCompile(f: seq<string>, terms: seq<seq<TermSyntax>>)
    requires WellSpelled(terms) && |f| == |terms|
  {
    forall i | 0 <= i < |terms| ::
      Position(|terms|, i).max < STAR_BIT && CompilesTo(f[i], terms[i], Position(|terms|, i))
  }

  lemma TermsCompile(terms: seq<seq<TermSyntax>>)
    requires WellSpelled(terms)
    ensures AllCompile(RenderFields(terms), terms)
  {
    forall i | 0 <= i < |terms|
      ensures Position(|terms|, i).max < STAR_BIT && CompilesTo(RenderFields(terms)[i], terms[i], Position(|terms|, i))
    {
      CompileAt(terms, i, Position(|terms|, i));
    }
  }

  function PartOf(s: SpecSchedule, i: nat): Mask
    requires i < 6
  {
    match i
    case 0 => s.second
    case 1 => s.minute
    case 2 => s.hour
    case 3 => s.dom
    case 4 => s.month
    case 5 => s.dow
  }

  lemma SixFieldsPart(f: seq<string>, i: nat)
    requires |f| == 6 && i < 6
    ensures Field(i).max < STAR_BIT
    ensures SixFields(f).Some? ==> Compile(f[i], Field(i)) == Some(PartOf(SixFields(f).value, i))
  {
    if SixFields(f).Some? {
      SixParts(f);
      OnePart(f, SixFields(f).value, i);
    }
  }

  lemma OnePart(f: seq<string>, s: SpecSchedule, i: nat)
    requires |f| == 6 && i < 6
    requires Compile(f[0], SECONDS) == Some(s.second) && Compile(f[1], MINUTES) == Some(s.minute)
    requires Compile(f[2], HOURS) == Some(s.hour) && Compile(f[3], DOM) == Some(s.dom)
    requires Compile(f[4], MONTHS) == Some(s.month) && Compile(f[5], DOW) == Some(s.dow)
    ensures Field(i).max < STAR_BIT && Compile(f[i], Field(i)) == Some(PartOf(s, i))
  {
    match i
    case 0 => assert Field(i) == SECONDS;
    case 1 => assert Field(i) == MINUTES;
    case 2 => assert Field(i) == HOURS;
    case 3 => assert Field(i) == DOM;
    case 4 => assert Field(i) == MONTHS;
    case 5 => assert Field(i) == DOW;
  }

  ghost predicate Compiles(text: string, b: Bounds) {
    b.max < STAR_BIT && Compile(text, b).Some?
  }

  ghost predicate EachCompiles(f: seq<string>)
    requires |f| == 6
  {
    forall i | 0 <= i < 6 :: Compiles(f[i], Field(i))
  }

  lemma SixFieldsIff(f: seq<string>)
    requires |f| == 6
    ensures SixFields(f).Some? <==> EachCompiles(f)
  {
    SixParts(f);
    if EachCompiles(f) {
      assert Compiles(f[0], Field(0)) && Compiles(f[1], Field(1)) && Compiles(f[2], Field(2));
      assert Compiles(f[3], Field(3)) && Compiles(f[4], Field(4)) && Compiles(f[5], Field(5));
    }
    if SixFields(f).Some? {
      forall i | 0 <= i < 6
        ensures Compiles(f[i], Field(i))
      {
        SixFieldsPart(f, i);
      }
    }
  }

  // Five or six fields.

  function Padded(f: seq<string>): (g: seq<string>)
    requires |f| == 5 || |f| == 6
    ensures |g| == 6
  {
    if |f| == 5 then ["0"] + f else f
  }

  lemma ZeroSecond()
    ensures Compile("0", SECONDS) == Some({0})
  {
    Numerals();
    FieldNumber("0", 0, SECONDS);
  }

  /** Each field is compiled for its position, and without seconds the second is 0. */
  lemma PaddedCompile(f: seq<string>)
    requires |f| == 5 || |f| == 6
    ensures ScheduleOf(f) == SixFields(Padded(f))
    ensures forall i | 0 <= i < |f| :: Padded(f)[i + 6 - |f|] == f[i]
    ensures |f| == 5 ==> Compile(Padded(f)[0], SECONDS) == Some({0})
    ensures |f| == 5 && ScheduleOf(f).Some? ==> ScheduleOf(f).value.second == {0}
  {
    if |f| == 5 {
      ZeroSecond();
      SixParts(Padded(f));
    }
  }

  lemma PaddedCompiles(f: seq<string>, g: seq<string>)
    requires (|f| == 5 || |f| == 6) && |g| == 6
    requires forall i | 0 <= i < |f| :: g[i + 6 - |f|] == f[i]
    requires |f| == 5 ==> Compiles(g[0], Field(0))
    requires ForPositions(f)
    ensures EachCompiles(g)
  {
    var o := 6 - |f|;
    forall i | 0 <= i < 6
      ensures Compiles(g[i], Field(i))
    {
      if i >= o {
        assert g[i - o + 6 - |f|] == f[i - o] && Compiles(f[i - o], Position(|f|, i - o));
      }
    }
  }

  lemma UnpaddedCompiles(f: seq<string>, g: seq<string>)
    requires (|f| == 5 || |f| == 6) && |g| == 6
    requires forall i | 0 <= i < |f| :: g[i + 6 - |f|] == f[i]
    requires EachCompiles(g)
    ensures ForPositions(f)
  {
    forall i | 0 <= i < |f|
      ensures Compiles(f[i], Position(|f|, i))
    {
      assert Compiles(g[i + 6 - |f|], Field(i + 6 - |f|));
    }
  }

  ghost predicate ForPositions(f: seq<string>)
    requires |f| == 5 || |f| == 6
  {
    forall i | 0 <= i < |f| :: Compiles(f[i], Position(|f|, i))
  }

  lemma ValidIff(f: seq<string>, terms: seq<seq<TermSyntax>>)
    requires WellSpelled(terms) && |f| == |terms| && AllCompile(f, terms)
    ensures ForPositions(f) <==> AllFieldsValid(terms)
  {
  }

  lemma PartMeans(f: seq<string>, terms: seq<seq<TermSyntax>>, i: nat, b: Bounds)
    requires WellSpelled(terms) && |f| == |terms| && AllCompile(f, terms)
    requires i < |terms| && ScheduleOf(f).Some? && AllFieldsValid(terms) && b == Position(|terms|, i)
    ensures b.max < STAR_BIT && MaskMeans(PartOf(ScheduleOf(f).value, i + 6 - |terms|), terms[i], b)
  {
    PaddedCompile(f);
    SixFieldsPart(Padded(f), i + 6 - |terms|);
    assert CompilesTo(f[i], terms[i], b);
  }

  lemma TermsAccepted(f: seq<string>, terms: seq<seq<TermSyntax>>)
    requires WellSpelled(terms) && |f| == |terms| && AllCompile(f, terms)
    ensures ScheduleOf(f).Some? <==> AllFieldsValid(terms)
  {
    var g := Padded(f);
    PaddedCompile(f);
    SixFieldsIff(g);
    if EachCompiles(g) {
      UnpaddedCompiles(f, g);
    }
    if ForPositions(f) {
      PaddedCompiles(f, g);
    }
    ValidIff(f, terms);
  }

  lemma TermsSay(f: seq<string>, terms: seq<seq<TermSyntax>>)
    requires WellSpelled(terms) && |f| == |terms| && AllCompile(f, terms)
    requires AllFieldsValid(terms) && ScheduleOf(f).Some?
    ensures SaysTerms(ScheduleOf(f).value, terms)
  {
    var o := |terms| - 5;
    PartMeans(f, terms, o, Field(1));
    PartMeans(f, terms, o + 1, Field(2));
    PartMeans(f, terms, o + 2, Field(3));
    PartMeans(f, terms, o + 3, Field(4));
    PartMeans(f, terms, o + 4, Field(5));
    if o == 1 {
      PartMeans(f, terms, 0, Field(0));
    } else {
      PaddedCompile(f);
    }
  }

  /**
   An expression of rendered fields is accepted exactly when every term is valid in its place,
   and each part of the schedule then permits what the terms of its own field mean.
   */
  lemma ExpressionRoundTrip(terms: seq<seq<TermSyntax>>, parseDuration: string -> Option<int>)
    requires WellSpelled(terms)
    ensures var r := Parse(Join(RenderFields(terms), ' '), parseDuration);
      && (r.Some? <==> AllFieldsValid(terms))
      && (r.Some? ==> r.value.Cron? && SaysTerms(r.value.spec, terms))
  {
    var f := RenderFields(terms);
    FieldsAreWords(terms);
    ParseJoined(f, parseDuration);
    TermsCompile(terms);
    TermsAccepted(f, terms);
    if AllFieldsValid(terms) {
      TermsSay(f, terms);
    }
  }
}
