/** The string operations the cron parser uses, on strings of Unicode characters. */
module Text {

  datatype Option<+T> = None | Some(value: T) {
    predicate IsFailure() {
      None?
    }

    function PropagateFailure<U>(): Option<U>
      requires None?
    {
      None
    }

    function Extract(): T
      requires Some?
    {
      value
    }
  }

  /** One more than the largest unsigned 64-bit number. */
  const WORD: nat := 0x1_0000_0000_0000_0000

  /** The position of the first c in s, or |s| if there is none. */
  function IndexOf(s: string, c: char): (i: nat)
    ensures i <= |s| && c !in s[..i] && (i < |s| ==> s[i] == c)
  {
    if s == "" || s[0] == c then 0
    else
      var i := IndexOf(s[1..], c) + 1;
      assert s[..i] == [s[0]] + s[1..][..i - 1];
      i
  }

  /** `strings.Split` for a one-character separator. */
  function Split(s: string, sep: char): (parts: seq<string>)
    ensures |parts| > 0
    decreases |s|
  {
    var i := IndexOf(s, sep);
    if i == |s| then [s] else [s[..i]] + Split(s[i + 1..], sep)
  }

  function Join(parts: seq<string>, sep: char): string
    requires |parts| > 0
  {
    if |parts| == 1 then parts[0] else parts[0] + [sep] + Join(parts[1..], sep)
  }

  predicate IsDigit(c: char) {
    '0' <= c <= '9'
  }

  predicate AllDigits(s: string) {
    forall i | 0 <= i < |s| :: IsDigit(s[i])
  }

  /** The number a string of digits denotes. */
  function Digits(s: string): nat
    requires AllDigits(s)
  {
    if s == "" then 0 else Digits(s[..|s| - 1]) * 10 + (s[|s| - 1] - '0') as nat
  }

  /** `strconv.ParseUint(s, 10, 64)`. */
  function ParseUint(s: string): Option<nat> {
    if s != "" && AllDigits(s) && Digits(s) < WORD then Some(Digits(s)) else None
  }

  /** The decimal notation of n. */
  function Decimal(n: nat): (s: string)
    ensures s != "" && AllDigits(s)
  {
    var last := '0' + (n % 10) as char;
    if n < 10 then [last] else Decimal(n / 10) + [last]
  }

  /**
   `strings.ToLower`, as far as it can produce ASCII letters: besides A to Z, those come from
   the dotted capital I and the Kelvin sign.
   */
  function ToLower(s: string): string {
    seq(|s|, i requires 0 <= i < |s| => LowerChar(s[i]))
  }

  function LowerChar(c: char): char {
    if 'A' <= c <= 'Z' then c - 'A' + 'a'
    else if c == '\U{0130}' then 'i'
    else if c == '\U{212A}' then 'k'
    else c
  }

  /** `unicode.IsSpace`. */
  predicate IsSpace(c: char) {
    || '\t' <= c <= '\r' || c == ' ' || c == '\U{0085}' || c == '\U{00A0}' || c == '\U{1680}'
    || '\U{2000}' <= c <= '\U{200A}' || c == '\U{2028}' || c == '\U{2029}' || c == '\U{202F}'
    || c == '\U{205F}' || c == '\U{3000}'
  }

  function TrimLeft(s: string): string {
    if s != "" && IsSpace(s[0]) then TrimLeft(s[1..]) else s
  }

  function TrimRight(s: string): string {
    if s != "" && IsSpace(s[|s| - 1]) then TrimRight(s[..|s| - 1]) else s
  }

  function TrimSpace(s: string): string {
    TrimRight(TrimLeft(s))
  }

  /** The length of the longest prefix without white space. */
  function WordLength(s: string): (n: nat)
    ensures n <= |s|
    ensures s != "" && !IsSpace(s[0]) ==> n > 0
  {
    if s == "" || IsSpace(s[0]) then 0 else 1 + WordLength(s[1..])
  }

  /** `strings.Fields`. */
  function Fields(s: string): seq<string>
    decreases |s|
  {
    if s == "" then []
    else if IsSpace(s[0]) then Fields(s[1..])
    else [s[..WordLength(s)]] + Fields(s[WordLength(s)..])
  }

  // Laws.

  lemma {:induction false} ParseDecimal(n: nat)
    ensures Digits(Decimal(n)) == n
  {
    var last := '0' + (n % 10) as char;
    if n >= 10 {
      ParseDecimal(n / 10);
      assert Decimal(n)[..|Decimal(n)| - 1] == Decimal(n / 10);
    } else {
      assert Decimal(n)[..0] == "";
    }
  }

  lemma IndexOfAfter(head: string, c: char, tail: string)
    requires c !in head
    ensures IndexOf(head + [c] + tail, c) == |head|
  {
    var s := head + [c] + tail;
    assert s[|head|] == c;
  }

  lemma IndexOfAbsent(s: string, c: char)
    requires c !in s
    ensures IndexOf(s, c) == |s|
  {
  }

  lemma SplitAt(head: string, sep: char, tail: string)
    requires sep !in head
    ensures Split(head + [sep] + tail, sep) == [head] + Split(tail, sep)
  {
    var s := head + [sep] + tail;
    IndexOfAfter(head, sep, tail);
    assert s[..|head|] == head && s[|head| + 1..] == tail;
  }

  /** Splitting undoes joining. */
  lemma {:induction false} SplitJoin(parts: seq<string>, sep: char)
    requires |parts| > 0 && forall p | p in parts :: sep !in p
    ensures Split(Join(parts, sep), sep) == parts
  {
    if |parts| == 1 {
      IndexOfAbsent(parts[0], sep);
    } else {
      var tail := Join(parts[1..], sep);
      SplitAt(parts[0], sep, tail);
      SplitJoin(parts[1..], sep);
    }
  }

  /** A word: not empty, and without white space. */
  predicate IsWord(s: string) {
    s != "" && forall i | 0 <= i < |s| :: !IsSpace(s[i])
  }

  lemma {:induction false} WordEnds(word: string, tail: string)
    requires (forall i | 0 <= i < |word| :: !IsSpace(word[i])) && (tail == "" || IsSpace(tail[0]))
    ensures WordLength(word + tail) == |word|
  {
    if word == "" {
      assert word + tail == tail;
    } else {
      assert (word + tail)[0] == word[0] && (word + tail)[1..] == word[1..] + tail;
      WordEnds(word[1..], tail);
    }
  }

  lemma FieldsOfWord(word: string, tail: string)
    requires IsWord(word) && (tail == "" || IsSpace(tail[0]))
    ensures Fields(word + tail) == [word] + Fields(tail)
  {
    var s := word + tail;
    WordEnds(word, tail);
    assert s[0] == word[0] && s[..|word|] == word && s[|word|..] == tail;
  }

  /** Taking the fields undoes joining words with blanks. */
  lemma {:induction false} FieldsJoin(words: seq<string>)
    requires |words| > 0 && forall i | 0 <= i < |words| :: IsWord(words[i])
    ensures Fields(Join(words, ' ')) == words
  {
    if |words| == 1 {
      FieldsOfWord(words[0], "");
      assert words[0] + "" == words[0];
    } else {
      var rest := Join(words[1..], ' ');
      var tail := [' '] + rest;
      FieldsJoin(words[1..]);
      FieldsOfWord(words[0], tail);
      assert tail[1..] == rest;
      assert words[0] + [' '] + rest == words[0] + tail;
    }
  }

  lemma {:induction false} JoinEnds(words: seq<string>)
    requires |words| > 0 && forall i | 0 <= i < |words| :: IsWord(words[i])
    ensures var s := Join(words, ' '); s != "" && words[0] != "" && s[0] == words[0][0] && !IsSpace(s[|s| - 1])
  {
    if |words| > 1 {
      JoinEnds(words[1..]);
    }
  }

  lemma NothingToTrim(s: string)
    requires s != "" && !IsSpace(s[0]) && !IsSpace(s[|s| - 1])
    ensures TrimSpace(s) == s
  {
  }

  ghost predicate AllWords(words: seq<string>) {
    |words| > 0 && forall i | 0 <= i < |words| :: IsWord(words[i])
  }

  lemma JoinedText(words: seq<string>)
    requires AllWords(words)
    ensures var s := Join(words, ' ');
      TrimSpace(s) == s && s != "" && Fields(s) == words && words[0] != "" && s[0] == words[0][0]
  {
    JoinEnds(words);
    assert IsWord(words[0]);
    NothingToTrim(Join(words, ' '));
    FieldsJoin(words);
  }

  predicate AllSpace(s: string) {
    forall i | 0 <= i < |s| :: IsSpace(s[i])
  }

  lemma {:induction false} TrimLeftSkips(l: string, s: string)
    requires AllSpace(l)
    ensures TrimLeft(l + s) == TrimLeft(s)
  {
    if l == "" {
      assert l + s == s;
    } else {
      assert (l + s)[0] == l[0] && (l + s)[1..] == l[1..] + s;
      TrimLeftSkips(l[1..], s);
    }
  }

  lemma {:induction false} TrimRightSkips(s: string, r: string)
    requires AllSpace(r)
    ensures TrimRight(s + r) == TrimRight(s)
  {
    if r == "" {
      assert s + r == s;
    } else {
      var n := |r| - 1;
      assert (s + r)[|s| + n] == r[n] && (s + r)[..|s| + n] == s + r[..n];
      TrimRightSkips(s, r[..n]);
    }
  }

  /** White space on the right survives trimming the left, unless there is nothing else. */
  lemma {:induction false} TrimLeftKeeps(s: string, r: string)
    requires AllSpace(r)
    ensures TrimLeft(s + r) == TrimLeft(s) + r || (TrimLeft(s) == "" && TrimLeft(s + r) == "")
  {
    if s == "" {
      assert s + r == r && r + "" == r;
      TrimLeftSkips(r, "");
    } else {
      assert (s + r)[0] == s[0] && (s + r)[1..] == s[1..] + r;
      if IsSpace(s[0]) {
        TrimLeftKeeps(s[1..], r);
      }
    }
  }

  /** White space around a text is dropped. */
  lemma TrimSurrounded(l: string, s: string, r: string)
    requires AllSpace(l) && AllSpace(r)
    ensures TrimSpace(l + s + r) == TrimSpace(s)
  {
    assert l + s + r == l + (s + r);
    TrimLeftSkips(l, s + r);
    TrimLeftKeeps(s, r);
    TrimRightSkips(TrimLeft(s), r);
  }

  lemma {:induction false} WordPrefix(s: string)
    requires s != "" && !IsSpace(s[0])
    ensures var n := WordLength(s); IsWord(s[..n]) && (n == |s| || IsSpace(s[n]))
  {
    var n := WordLength(s);
    if |s| > 1 && !IsSpace(s[1]) {
      WordPrefix(s[1..]);
      assert s[..n] == [s[0]] + s[1..][..n - 1];
    }
  }

  lemma WordThenRest(word: string, rest: string, tail: string)
    requires IsWord(word) && (rest == "" || IsSpace(rest[0])) && (tail == "" || IsSpace(tail[0]))
    ensures Fields((word + rest) + tail) == [word] + Fields(rest + tail)
  {
    Associative(word, rest, tail);
    StartsWithSpace(rest, tail);
    FieldsOfWord(word, rest + tail);
  }

  lemma Associative(a: string, b: string, c: string)
    ensures (a + b) + c == a + (b + c)
  {
  }

  lemma StartsWithSpace(a: string, b: string)
    requires (a == "" || IsSpace(a[0])) && (b == "" || IsSpace(b[0]))
    ensures a + b == "" || IsSpace((a + b)[0])
  {
  }

  lemma FirstWord(s: string, tail: string)
    requires s != "" && !IsSpace(s[0]) && (tail == "" || IsSpace(tail[0]))
    ensures var n := WordLength(s); n > 0 && Fields(s + tail) == [s[..n]] + Fields(s[n..] + tail)
  {
    var n := WordLength(s);
    WordPrefix(s);
    assert s[..n] + s[n..] == s;
    WordThenRest(s[..n], s[n..], tail);
  }

  /** White space separates fields. */
  lemma {:induction false} FieldsConcat(s: string, tail: string)
    requires tail == "" || IsSpace(tail[0])
    ensures Fields(s + tail) == Fields(s) + Fields(tail)
    decreases |s|
  {
    if s == "" {
      assert s + tail == tail;
    } else if IsSpace(s[0]) {
      assert (s + tail)[0] == s[0] && (s + tail)[1..] == s[1..] + tail;
      FieldsConcat(s[1..], tail);
    } else {
      FirstWord(s, tail);
      FieldsConcat(s[WordLength(s)..], tail);
    }
  }

  /** The capital of a small letter. */
  function UpperChar(c: char): char {
    if 'a' <= c <= 'z' then c - 'a' + 'A' else c
  }

  /** Small letters stay as they are, and capitals become small. */
  lemma LowerLetters(c: char)
    requires 'a' <= c <= 'z'
    ensures LowerChar(c) == c && LowerChar(UpperChar(c)) == c
  {
  }
}
