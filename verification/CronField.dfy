/** Reading one field of a cron expression into its mask. */
module CronField {
  import opened Text
  import opened CronSchedule
  import opened Calendar

  datatype Bounds = Bounds(min: nat, max: nat, names: map<string, nat>)

  const MONTH_NAMES: map<string, nat> := map[
    "jan" := 1, "feb" := 2, "mar" := 3, "apr" := 4, "may" := 5, "jun" := 6,
    "jul" := 7, "aug" := 8, "sep" := 9, "oct" := 10, "nov" := 11, "dec" := 12]

  const DOW_NAMES: map<string, nat> := map[
    "sun" := 0, "mon" := 1, "tue" := 2, "wed" := 3, "thu" := 4, "fri" := 5, "sat" := 6]

  const SECONDS := Bounds(0, 59, map[])
  const MINUTES := Bounds(0, 59, map[])
  const HOURS := Bounds(0, 23, map[])
  const DOM := Bounds(1, 31, map[])
  const MONTHS := Bounds(1, 12, MONTH_NAMES)
  const DOW := Bounds(0, 6, DOW_NAMES)

  /** What one term says: lo, lo + step, ... up to hi; `star` is a wildcard without a step. */
  datatype Term = Term(lo: nat, hi: nat, step: nat, star: bool)

  /** A term that passed the range checks for these bounds. */
  predicate ValidTerm(t: Term, b: Bounds) {
    && b.min <= t.lo <= t.hi <= b.max
    && 0 < t.step < WORD
    && (t.star ==> t.lo == b.min && t.hi == b.max && t.step == 1)
  }

  function ParseValue(s: string, b: Bounds): Option<nat> {
    if ToLower(s) in b.names then Some(b.names[ToLower(s)]) else ParseUint(s)
  }

  /** The part of a term before its step, given whether it has one. */
  function ReadRange(text: string, hasStep: bool, b: Bounds): Option<(nat, nat)> {
    if text == "*" || text == "?" then Some((b.min, b.max))
    else if '-' in text then
      var dash := IndexOf(text, '-');
      var lo :- ParseValue(text[..dash], b);
      var hi :- ParseValue(text[dash + 1..], b);
      Some((lo, hi))
    else
      var lo :- ParseValue(text, b);
      Some((lo, if hasStep then b.max else lo))
  }

  /** Everything `parseTerm` does before it builds the mask; `None` is an error. */
  function ReadTerm(text: string, b: Bounds): (r: Option<Term>)
    ensures r.Some? ==> ValidTerm(r.value, b)
  {
    var slash := IndexOf(text, '/');
    var hasStep := slash < |text|;
    var step :- if hasStep then ParseUint(text[slash + 1..]) else Some(1);
    if step == 0 then None
    else
      var range :- ReadRange(text[..slash], hasStep, b);
      var wildcard := text[..slash] == "*" || text[..slash] == "?";
      if range.0 < b.min || range.1 > b.max || range.0 > range.1 then None
      else Some(Term(range.0, range.1, step, wildcard && !hasStep))
  }

  /** Unsigned 64-bit addition. */
  function AddWord(i: nat, step: nat): (sum: nat)
    requires i < WORD && step < WORD
    ensures sum == (i + step) % WORD
  {
    if i + step < WORD then i + step else i + step - WORD
  }

  /**
   A bound on the rounds the step loop still makes at i.  If hi + step stays below 2^64 the
   counter climbs; otherwise it either leaves the range at once or wraps to something smaller.
   */
  ghost function Rounds(i: nat, hi: nat, step: nat): nat {
    if i > hi then 0 else if hi + step < WORD then hi - i + 1 else i + 1
  }

  /** The bits the loop `for i := i; i <= hi; i += step` sets, with i a 64-bit counter. */
  function StepBits(i: nat, hi: nat, step: nat): (bits: Mask)
    requires i < WORD && hi < STAR_BIT && 0 < step < WORD
    ensures forall v | v in bits :: v <= hi
    ensures i <= hi ==> i in bits
    decreases Rounds(i, hi, step)
  {
    if i > hi then {} else {i} + StepBits(AddWord(i, step), hi, step)
  }

  function TermMask(t: Term): Mask
    requires t.lo < WORD && t.hi < STAR_BIT && 0 < t.step < WORD
  {
    StepBits(t.lo, t.hi, t.step) + (if t.star then {STAR_BIT} else {})
  }

  function FieldMask(terms: seq<string>, b: Bounds): Option<Mask>
    requires b.max < STAR_BIT
  {
    if terms == [] then Some({})
    else
      var t :- ReadTerm(terms[0], b);
      var rest :- FieldMask(terms[1..], b);
      Some(TermMask(t) + rest)
  }

  /** The loop of `parseTerm`.  It ends for every non-zero 64-bit step, wrapping included. */
  method StepLoop(lo: nat, hi: nat, step: nat) returns (mask: Mask)
    requires lo < WORD && hi < STAR_BIT && 0 < step < WORD
    ensures mask == StepBits(lo, hi, step)
  {
    mask := {};
    var i: nat := lo;
    while i <= hi
      invariant i < WORD
      invariant mask + StepBits(i, hi, step) == StepBits(lo, hi, step)
      decreases Rounds(i, hi, step)
    {
      mask := mask + {i};
      i := AddWord(i, step);
    }
  }

  /** `parseTerm`. */
  method ParseTerm(text: string, b: Bounds) returns (r: Option<Mask>)
    requires b.max < STAR_BIT
    ensures r.Some? <==> ReadTerm(text, b).Some?
    ensures r.Some? ==> r.value == TermMask(ReadTerm(text, b).value)
  {
    var read := ReadTerm(text, b);
    if read.None? {
      return None;
    }
    var t := read.value;
    var mask := StepLoop(t.lo, t.hi, t.step);
    if t.star {
      mask := mask + {STAR_BIT};
    }
    return Some(mask);
  }

  /** `parseField`: the union of the terms' masks, or an error if one of them is bad. */
  method ParseField(field: string, b: Bounds) returns (r: Option<Mask>)
    requires b.max < STAR_BIT
    ensures r == FieldMask(Split(field, ','), b)
  {
    var terms := Split(field, ',');
    var mask: Mask := {};
    var k := 0;
    assert terms[0..] == terms;
    while k < |terms|
      invariant 0 <= k <= |terms|
      invariant FieldMask(terms, b).Some? <==> FieldMask(terms[k..], b).Some?
      invariant FieldMask(terms, b).Some? ==> FieldMask(terms, b).value == mask + FieldMask(terms[k..], b).value
    {
      FieldMaskStep(terms[k..], b);
      assert terms[k..][1..] == terms[k + 1..];
      var m := ParseTerm(terms[k], b);
      if m.None? {
        return None;
      }
      mask := mask + m.value;
      k := k + 1;
    }
    return Some(mask);
  }

  lemma FieldMaskStep(terms: seq<string>, b: Bounds)
    requires b.max < STAR_BIT && terms != []
    ensures FieldMask(terms, b).Some? <==> ReadTerm(terms[0], b).Some? && FieldMask(terms[1..], b).Some?
    ensures FieldMask(terms, b).Some? ==>
      FieldMask(terms, b).value == TermMask(ReadTerm(terms[0], b).value) + FieldMask(terms[1..], b).value
  {
  }

  // What the masks mean.

  predicate InProgression(v: nat, lo: nat, hi: nat, step: nat)
    requires 0 < step
  {
    lo <= v <= hi && (v - lo) % step == 0
  }

  lemma LessOneStep(d: nat, step: nat)
    requires 0 < step
    ensures d >= step ==> d % step == (d - step) % step
    ensures d < step ==> d % step == d
  {
    if d >= step {
      RemainderOfSum(d, (d - step) / step + 1, (d - step) % step, step);
    } else {
      RemainderOfSum(d, 0, d, step);
    }
  }

  lemma {:induction false} StepsUp(i: nat, hi: nat, step: nat, v: nat)
    requires i < WORD && hi < STAR_BIT && 0 < step && hi + step < WORD
    ensures v in StepBits(i, hi, step) <==> InProgression(v, i, hi, step)
    decreases Rounds(i, hi, step)
  {
    if i <= hi {
      StepsUp(i + step, hi, step, v);
      if v >= i {
        LessOneStep(v - i, step);
        assert v >= i + step ==> v - i - step == v - (i + step);
      }
    }
  }

  /** A step within hi of 2^64 walks down instead, by 2^64 - step. */
  lemma {:induction false} StepsDown(i: nat, hi: nat, step: nat, v: nat)
    requires i <= hi < STAR_BIT && step < WORD <= hi + step
    ensures v in StepBits(i, hi, step) <==> v <= i && (i - v) % (WORD - step) == 0
    decreases i
  {
    var down := WORD - step;
    if v <= i {
      LessOneStep(i - v, down);
    }
    if i >= down {
      assert AddWord(i, step) == i - down;
      StepsDown(i - down, hi, step, v);
      assert v <= i - down ==> i - down - v == i - v - down;
    } else {
      assert StepBits(AddWord(i, step), hi, step) == {};
    }
  }

  /**
   A term denotes the arithmetic progression it spells exactly when its first step does not
   wrap around; if it does, values below the start of the range appear.
   */
  lemma TermDenotesProgressionIff(t: Term, b: Bounds)
    requires ValidTerm(t, b) && b.max < STAR_BIT
    ensures (forall v :: v in StepBits(t.lo, t.hi, t.step) <==> InProgression(v, t.lo, t.hi, t.step))
       <==> t.lo + t.step < WORD
  {
    if t.hi + t.step < WORD {
      forall v
        ensures v in StepBits(t.lo, t.hi, t.step) <==> InProgression(v, t.lo, t.hi, t.step)
      {
        StepsUp(t.lo, t.hi, t.step, v);
      }
    } else if t.lo + t.step < WORD {
      forall v
        ensures v in StepBits(t.lo, t.hi, t.step) <==> InProgression(v, t.lo, t.hi, t.step)
      {
        OnlyFirst(t.lo, t.hi, t.step, v);
      }
    } else {
      var v := t.lo + t.step - WORD;
      StepsDown(t.lo, t.hi, t.step, v);
      RemainderOfSum(t.lo - v, 1, 0, WORD - t.step);
      assert v in StepBits(t.lo, t.hi, t.step) && !InProgression(v, t.lo, t.hi, t.step);
    }
  }

  lemma OnlyFirst(lo: nat, hi: nat, step: nat, v: nat)
    requires lo <= hi < STAR_BIT && step < WORD <= hi + step && lo + step < WORD
    ensures v in StepBits(lo, hi, step) <==> v == lo
    ensures InProgression(v, lo, hi, step) <==> v == lo
  {
    assert StepBits(AddWord(lo, step), hi, step) == {};
    if lo <= v <= hi {
      RemainderOfSum(v - lo, 0, v - lo, step);
    }
  }

  /** The mask of an accepted field is the union of its terms' masks. */
  lemma {:induction false} FieldIsUnion(terms: seq<string>, b: Bounds, v: nat)
    requires b.max < STAR_BIT && FieldMask(terms, b).Some?
    ensures forall k | 0 <= k < |terms| :: ReadTerm(terms[k], b).Some?
    ensures v in FieldMask(terms, b).value <==>
            exists k :: 0 <= k < |terms| && v in TermMask(ReadTerm(terms[k], b).value)
  {
    if terms != [] {
      FieldMaskStep(terms, b);
      FieldIsUnion(terms[1..], b, v);
      assert forall k | 0 < k < |terms| :: terms[k] == terms[1..][k - 1];
      if v in FieldMask(terms[1..], b).value {
        var k :| 0 <= k < |terms[1..]| && v in TermMask(ReadTerm(terms[1..][k], b).value);
        assert v in TermMask(ReadTerm(terms[k + 1], b).value);
      }
    }
  }

  /** A field with a bad term is rejected as a whole. */
  lemma {:induction false} FieldAcceptedIff(terms: seq<string>, b: Bounds)
    requires b.max < STAR_BIT
    ensures FieldMask(terms, b).Some? <==> forall k | 0 <= k < |terms| :: ReadTerm(terms[k], b).Some?
  {
    if terms != [] {
      FieldMaskStep(terms, b);
      FieldAcceptedIff(terms[1..], b);
      assert forall k | 0 < k < |terms| :: terms[k] == terms[1..][k - 1];
    }
  }

  /** Every accepted field permits a value of its range, and an unrestricted one all of them. */
  lemma AcceptedField(terms: seq<string>, b: Bounds)
    requires b.max < STAR_BIT && |terms| > 0 && FieldMask(terms, b).Some?
    ensures var mask := FieldMask(terms, b).value;
      && (exists v :: b.min <= v <= b.max && v in mask)
      && (forall v | v in mask :: v <= b.max || v == STAR_BIT)
      && (STAR_BIT in mask ==> forall v | b.min <= v <= b.max :: v in mask)
  {
    var mask := FieldMask(terms, b).value;
    FieldAcceptedIff(terms, b);
    var first := ReadTerm(terms[0], b).value;
    FieldIsUnion(terms, b, first.lo);
    assert first.lo in TermMask(first);
    forall v | v in mask
      ensures v <= b.max || v == STAR_BIT
    {
      FieldIsUnion(terms, b, v);
    }
    if STAR_BIT in mask {
      FieldIsUnion(terms, b, STAR_BIT);
      var k :| 0 <= k < |terms| && STAR_BIT in TermMask(ReadTerm(terms[k], b).value);
      forall v | b.min <= v <= b.max
        ensures v in mask
      {
        FieldIsUnion(terms, b, v);
        WildcardIsFull(ReadTerm(terms[k], b).value, b, v);
      }
    }
  }

  lemma WildcardIsFull(t: Term, b: Bounds, v: nat)
    requires ValidTerm(t, b) && b.max < STAR_BIT && STAR_BIT in TermMask(t) && b.min <= v <= b.max
    ensures v in TermMask(t)
  {
    StepsUp(b.min, b.max, 1, v);
  }
}
