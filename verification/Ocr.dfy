/** Reading a labelled payment amount out of recognised text. Values are exact rationals; that
    `parseFloat` rounds them to a double is not modelled. */
module Ocr {
  import opened Common

  const ARABIC_ZERO: char := '\U{0660}'
  const ARABIC_NINE: char := '\U{0669}'
  const ARABIC_COMMA: char := '\U{060C}'

  predicate IsDigit(c: char) { '0' <= c <= '9' }

  predicate IsArabicDigit(c: char) { ARABIC_ZERO <= c <= ARABIC_NINE }

  /** The class `[\d٠-٩]`. */
  predicate IsAnyDigit(c: char) { IsDigit(c) || IsArabicDigit(c) }

  /** The class of the captured number. */
  predicate InNumber(c: char) { IsAnyDigit(c) || c == ',' || c == ARABIC_COMMA || c == '.' }

  function WesternChar(c: char): char {
    if IsArabicDigit(c) then (c as int - ARABIC_ZERO as int + '0' as int) as char
    else if c == ARABIC_COMMA then ','
    else c
  }

  function ArabicToWestern(s: string): (r: string)
    ensures |r| == |s|
  {
    seq(|s|, i requires 0 <= i < |s| => WesternChar(s[i]))
  }

  /** The labels, in the order of the alternation: "al-mablagh", "mablagh", amount, total, "ijmali"
      and "al-qima". */
  const LABELS: seq<string> := [
    "\U{0627}\U{0644}\U{0645}\U{0628}\U{0644}\U{063A}",
    "\U{0645}\U{0628}\U{0644}\U{063A}",
    "amount",
    "total",
    "\U{0625}\U{062C}\U{0645}\U{0627}\U{0644}\U{064A}",
    "\U{0627}\U{0644}\U{0642}\U{064A}\U{0645}\U{0629}"]

  function Lower(c: char): char {
    if 'A' <= c <= 'Z' then (c as int + 32) as char else c
  }

  /** The text begins with a label, in any case. */
  predicate Begins(s: string, tag: string) {
    |tag| <= |s| && forall i | 0 <= i < |tag| :: Lower(s[i]) == tag[i]
  }

  /** The length of the first label that matches here; 0 when none does. */
  function LabelAt(s: string, k: nat): (n: nat)
    ensures n <= |s|
    decreases |LABELS| - k
  {
    if k >= |LABELS| then 0
    else if Begins(s, LABELS[k]) then |LABELS[k]|
    else LabelAt(s, k + 1)
  }

  /** The longest prefix without digits. */
  function Filler(s: string): (n: nat)
    ensures n <= |s|
  {
    if s == "" || IsAnyDigit(s[0]) then 0 else 1 + Filler(s[1..])
  }

  /** The longest prefix inside the number class. */
  function NumberLength(s: string): (n: nat)
    ensures n <= |s|
  {
    if s == "" || !InNumber(s[0]) then 0 else 1 + NumberLength(s[1..])
  }

  /** `AMOUNT_RE.exec`: the captured number of the leftmost match. */
  function AmountRe(s: string): Option<string> {
    if s == "" then None
    else
      var tag := LabelAt(s, 0);
      var rest := s[tag..];
      var number := rest[Filler(rest)..];
      if tag > 0 && number != "" then Some(number[..NumberLength(number)])
      else AmountRe(s[1..])
  }

  function RemoveCommas(s: string): string {
    if s == "" then "" else (if s[0] == ',' then "" else [s[0]]) + RemoveCommas(s[1..])
  }

  function DigitRun(s: string): (n: nat)
    ensures n <= |s|
    ensures forall i | 0 <= i < n :: IsDigit(s[i])
  {
    if s == "" || !IsDigit(s[0]) then 0 else 1 + DigitRun(s[1..])
  }

  function DigitsValue(s: string): nat
    requires forall i | 0 <= i < |s| :: IsDigit(s[i])
  {
    if s == "" then 0
    else
      assert IsDigit(s[|s| - 1]);
      10 * DigitsValue(s[..|s| - 1]) + (s[|s| - 1] as int - '0' as int)
  }

  function Pow10(n: nat): (p: nat)
    ensures p > 0
  {
    if n == 0 then 1 else 10 * Pow10(n - 1)
  }

  /** `parseFloat` of a text that begins with a digit: the longest decimal literal. */
  function ParseFloat(s: string): Option<real> {
    var n := DigitRun(s);
    if n == 0 then None
    else if n < |s| && s[n] == '.' then
      var f := DigitRun(s[n + 1..]);
      Some(DigitsValue(s[..n]) as real + DigitsValue(s[n + 1..][..f]) as real / Pow10(f) as real)
    else Some(DigitsValue(s[..n]) as real)
  }

  /** The labelled stage of `parseAmount`. */
  function LabelledAmount(text: string): Option<real> {
    var m := AmountRe(ArabicToWestern(text));
    if m.None? then None
    else
      var v := ParseFloat(RemoveCommas(m.value));
      if v.Some? && v.value > 0.0 then v else None
  }

  // ---------------------------------------------------------------- the match

  /** A match of the expression at the start of `s`: a label, `f` characters that are no digits, and
      a number of `g` characters that begins with a digit. */
  ghost predicate MatchesHere(s: string, tag: nat, f: nat, g: nat) {
    && tag > 0 && tag + f + g <= |s| && g > 0
    && (forall i | tag <= i < tag + f :: !IsAnyDigit(s[i]))
    && IsAnyDigit(s[tag + f])
    && (forall i | tag + f <= i < tag + f + g :: InNumber(s[i]))
  }

  lemma {:induction false} FillerStops(s: string)
    ensures forall i | 0 <= i < Filler(s) :: !IsAnyDigit(s[i])
    ensures Filler(s) < |s| ==> IsAnyDigit(s[Filler(s)])
  {
    if s != "" && !IsAnyDigit(s[0]) {
      FillerStops(s[1..]);
    }
  }

  lemma {:induction false} FillerIs(s: string, f: nat)
    requires f < |s| && IsAnyDigit(s[f]) && forall i | 0 <= i < f :: !IsAnyDigit(s[i])
    ensures Filler(s) == f
  {
    if f > 0 {
      FillerIs(s[1..], f - 1);
    }
  }

  lemma {:induction false} NumberStops(s: string)
    ensures forall i | 0 <= i < NumberLength(s) :: InNumber(s[i])
    ensures NumberLength(s) < |s| ==> !InNumber(s[NumberLength(s)])
  {
    if s != "" && InNumber(s[0]) {
      NumberStops(s[1..]);
    }
  }

  lemma {:induction false} NumberAtLeast(s: string, g: nat)
    requires g <= |s| && forall i | 0 <= i < g :: InNumber(s[i])
    ensures g <= NumberLength(s)
  {
    if g > 0 {
      NumberAtLeast(s[1..], g - 1);
    }
  }

  /** Taking the longest filler and the longest number is what the expression's greedy search finds:
      every match here has that filler, and no longer number. */
  lemma GreedyMatch(s: string, tag: nat)
    requires 0 < tag <= |s|
    ensures var rest := s[tag..];
      var f := Filler(rest);
      var g := NumberLength(rest[f..]);
      && (rest[f..] != "" ==> MatchesHere(s, tag, f, g))
      && (forall f': nat, g': nat | MatchesHere(s, tag, f', g') :: rest[f..] != "" && f' == f && g' <= g)
  {
    var rest := s[tag..];
    var f := Filler(rest);
    FillerStops(rest);
    NumberStops(rest[f..]);
    assert forall i | 0 <= i < |rest| :: rest[i] == s[tag + i];
    assert forall i | 0 <= i < |rest| - f :: rest[f..][i] == s[tag + f + i];
    forall f': nat, g': nat | MatchesHere(s, tag, f', g')
      ensures rest[f..] != "" && f' == f && g' <= NumberLength(rest[f..])
    {
      FillerIs(rest, f');
      NumberAtLeast(rest[f..], g');
    }
  }

  ghost predicate MatchesAt(s: string, i: nat, f: nat, g: nat) {
    i < |s| && MatchesHere(s[i..], LabelAt(s[i..], 0), f, g)
  }

  /** `value` is the number of the match at `i`, the leftmost, with the longest number there. */
  ghost predicate FoundAt(s: string, value: string, i: nat, f: nat, g: nat) {
    && MatchesAt(s, i, f, g)
    && value == s[i..][LabelAt(s[i..], 0) + f..][..g]
    && (forall f': nat, g': nat | MatchesAt(s, i, f', g') :: f' == f && g' <= g)
    && (forall j: nat, f': nat, g': nat | j < i :: !MatchesAt(s, j, f', g'))
  }

  lemma FoundHere(s: string, tag: nat, f: nat, g: nat)
    requires s != "" && tag == LabelAt(s, 0) && MatchesHere(s, tag, f, g)
    requires forall f': nat, g': nat | MatchesHere(s, tag, f', g') :: f' == f && g' <= g
    ensures FoundAt(s, s[tag + f..][..g], 0, f, g)
  {
    hide MatchesHere, LabelAt;
    assert s[0..] == s;
  }

  /** The search takes the leftmost position with a match, and there the longest number. */
  lemma {:induction false} AmountReIsLeftmost(s: string) returns (i: nat, f: nat, g: nat)
    ensures AmountRe(s).None? ==> forall j: nat, f': nat, g': nat :: !MatchesAt(s, j, f', g')
    ensures AmountRe(s).Some? ==> FoundAt(s, AmountRe(s).value, i, f, g)
  {
    i, f, g := 0, 0, 0;
    if s != "" {
      assert s[0..] == s;
      var tag := LabelAt(s, 0);
      var rest := s[tag..];
      if tag > 0 { GreedyMatch(s, tag); }
      if tag > 0 && rest[Filler(rest)..] != "" {
        f, g := Filler(rest), NumberLength(rest[Filler(rest)..]);
        assert s[tag + f..] == rest[f..];
        FoundHere(s, tag, f, g);
      } else {
        i, f, g := AmountReIsLeftmost(s[1..]);
        forall f': nat, g': nat ensures !MatchesAt(s, 0, f', g') {
          assert MatchesAt(s, 0, f', g') ==> MatchesHere(s, tag, f', g');
        }
        forall j: nat, f': nat, g': nat | j > 0 ensures MatchesAt(s, j, f', g') <==> MatchesAt(s[1..], j - 1, f', g') {
          if j < |s| { assert s[j..] == s[1..][j - 1..]; }
        }
        if AmountRe(s).Some? {
          assert s[i + 1..] == s[1..][i..];
          ShiftFound(s, AmountRe(s).value, i, f, g);
          i := i + 1;
        }
      }
    }
  }

  lemma ShiftFound(s: string, value: string, i: nat, f: nat, g: nat)
    requires s != "" && FoundAt(s[1..], value, i, f, g) && s[i + 1..] == s[1..][i..]
    requires forall f': nat, g': nat :: !MatchesAt(s, 0, f', g')
    requires forall j: nat, f': nat, g': nat | j > 0 :: MatchesAt(s, j, f', g') <==> MatchesAt(s[1..], j - 1, f', g')
    ensures FoundAt(s, value, i + 1, f, g)
  {
    hide MatchesHere;
  }

  // ---------------------------------------------------------------- rendering

  function Digit(n: nat): char
    requires n < 10
  {
    (n + '0' as int) as char
  }

  function Decimal(n: nat): string {
    if n < 10 then [Digit(n)] else Decimal(n / 10) + [Digit(n % 10)]
  }

  /** A whole number with a comma before every three digits. */
  function Grouped(n: nat): string {
    if n < 1000 then Decimal(n)
    else Grouped(n / 1000) + [',', Digit(n / 100 % 10), Digit(n / 10 % 10), Digit(n % 10)]
  }

  /** An amount in hundredths, with thousands commas and two decimals. */
  function Render(cents: nat): string {
    Grouped(cents / 100) + ['.', Digit(cents / 10 % 10), Digit(cents % 10)]
  }

  /** `s` is a text of digits that reads as `n`. */
  ghost predicate Reads(s: string, n: nat) {
    s != "" && (forall i | 0 <= i < |s| :: IsDigit(s[i])) && DigitsValue(s) == n
  }

  lemma ReadsSnoc(s: string, n: nat, d: nat)
    requires Reads(s, n) && d < 10
    ensures Reads(s + [Digit(d)], 10 * n + d)
  {
    assert (s + [Digit(d)])[..|s|] == s;
  }

  lemma {:induction false} DecimalReads(n: nat)
    ensures Reads(Decimal(n), n)
  {
    if n >= 10 {
      DecimalReads(n / 10);
      ReadsSnoc(Decimal(n / 10), n / 10, n % 10);
    }
  }

  lemma {:induction false} RemoveCommasConcat(a: string, b: string)
    ensures RemoveCommas(a + b) == RemoveCommas(a) + RemoveCommas(b)
  {
    if a == "" {
      assert a + b == b;
    } else {
      var head := if a[0] == ',' then "" else [a[0]];
      assert RemoveCommas(a) == head + RemoveCommas(a[1..]);
      RemoveCommasConcat(a[1..], b);
      assert (a + b)[1..] == a[1..] + b;
      assert RemoveCommas(a + b) == head + (RemoveCommas(a[1..]) + RemoveCommas(b));
    }
  }

  lemma {:induction false} RemoveNoCommas(a: string)
    requires forall i | 0 <= i < |a| :: a[i] != ','
    ensures RemoveCommas(a) == a
  {
    if a != "" {
      RemoveNoCommas(a[1..]);
      assert a == [a[0]] + a[1..];
    }
  }

  lemma ReadsThree(r: string, q: nat, a: nat, b: nat, c: nat)
    requires Reads(r, q) && a < 10 && b < 10 && c < 10
    ensures Reads(r + [Digit(a), Digit(b), Digit(c)], 1000 * q + 100 * a + 10 * b + c)
  {
    hide Reads;
    ReadsSnoc(r, q, a);
    ReadsSnoc(r + [Digit(a)], 10 * q + a, b);
    ReadsSnoc(r + [Digit(a)] + [Digit(b)], 10 * (10 * q + a) + b, c);
    assert r + [Digit(a)] + [Digit(b)] + [Digit(c)] == r + [Digit(a), Digit(b), Digit(c)];
  }

  lemma CommaGroup(g: string, q: nat, a: nat, b: nat, c: nat)
    requires Reads(RemoveCommas(g), q) && a < 10 && b < 10 && c < 10
    ensures Reads(RemoveCommas(g + [',', Digit(a), Digit(b), Digit(c)]), 1000 * q + 100 * a + 10 * b + c)
  {
    hide Reads;
    var last := [Digit(a), Digit(b), Digit(c)];
    RemoveCommasConcat(g, [','] + last);
    RemoveNoCommas(last);
    assert ([','] + last)[1..] == last;
    ReadsThree(RemoveCommas(g), q, a, b, c);
    assert RemoveCommas([','] + last) == last by { assert "" + last == last; }
    assert g + ([','] + last) == g + [',', Digit(a), Digit(b), Digit(c)];
  }

  lemma {:induction false} GroupedReads(n: nat)
    ensures Reads(RemoveCommas(Grouped(n)), n)
  {
    hide Reads, RemoveCommas;
    if n < 1000 {
      DecimalReads(n);
      DecimalDigits(n);
      RemoveNoCommas(Decimal(n));
    } else {
      GroupedReads(n / 1000);
      CommaGroup(Grouped(n / 1000), n / 1000, n / 100 % 10, n / 10 % 10, n % 10);
      ThreeDigits(n);
    }
  }

  lemma DecimalDigits(n: nat)
    ensures Decimal(n) != "" && forall i | 0 <= i < |Decimal(n)| :: IsDigit(Decimal(n)[i])
  {
    DecimalReads(n);
  }

  lemma {:induction false} GroupedShape(n: nat)
    ensures Grouped(n) != "" && IsDigit(Grouped(n)[0])
    ensures forall i | 0 <= i < |Grouped(n)| :: IsDigit(Grouped(n)[i]) || Grouped(n)[i] == ','
  {
    if n < 1000 {
      DecimalDigits(n);
    } else {
      GroupedShape(n / 1000);
    }
  }

  lemma ThreeDigits(n: nat)
    ensures n == 1000 * (n / 1000) + 100 * (n / 100 % 10) + 10 * (n / 10 % 10) + n % 10
  {
    assert n / 10 / 10 == n / 100 && n / 100 / 10 == n / 1000;
  }

  lemma {:induction false} DigitRunIs(a: string, b: string)
    requires (forall i | 0 <= i < |a| :: IsDigit(a[i])) && (b == "" || !IsDigit(b[0]))
    ensures DigitRun(a + b) == |a|
  {
    if a == "" {
      assert a + b == b;
    } else {
      DigitRunIs(a[1..], b);
      assert (a + b)[1..] == a[1..] + b;
    }
  }

  /** Digits, a point and digits read as the whole number and its fraction. */
  lemma ParseParts(r: string, n: nat, f: string, m: nat)
    requires Reads(r, n) && Reads(f, m)
    ensures ParseFloat(r + ['.'] + f) == Some(n as real + m as real / Pow10(|f|) as real)
  {
    hide DigitsValue, DigitRun, Pow10;
    var s := r + ['.'] + f;
    assert s == r + (['.'] + f);
    DigitRunIs(r, ['.'] + f);
    assert s[|r| + 1..] == f + "" == f;
    DigitRunIs(f, "");
    assert s[..|r|] == r && f[..|f|] == f;
  }

  /** Digits up to the end, or up to anything else but a point, read as the whole number. */
  lemma ParseWhole(r: string, n: nat, rest: string)
    requires Reads(r, n) && (rest == "" || (!IsDigit(rest[0]) && rest[0] != '.'))
    ensures ParseFloat(r + rest) == Some(n as real)
  {
    hide DigitsValue, DigitRun;
    DigitRunIs(r, rest);
    assert (r + rest)[..|r|] == r;
  }

  lemma TenTimesTen()
    ensures Pow10(2) == 100
  {
    assert Pow10(1) == 10;
  }

  /** The rendered amount, without its commas, is read back. */
  lemma RenderParses(cents: nat)
    ensures ParseFloat(RemoveCommas(Render(cents))) == Some(cents as real / 100.0)
  {
    hide Reads, RemoveCommas, ParseFloat, Pow10;
    TenTimesTen();
    var n, a, b := cents / 100, cents / 10 % 10, cents % 10;
    GroupedReads(n);
    var r, f := RemoveCommas(Grouped(n)), [Digit(a), Digit(b)];
    assert Render(cents) == Grouped(n) + (['.'] + f);
    RemoveCommasConcat(Grouped(n), ['.'] + f);
    RemoveNoCommas(['.'] + f);
    assert r + (['.'] + f) == r + ['.'] + f;
    ReadsTwo(a, b);
    ParseParts(r, n, f, 10 * a + b);
    assert cents == 100 * n + (10 * a + b) by { assert cents / 10 / 10 == cents / 100; }
    HundredthsAdd(n, 10 * a + b, cents);
  }

  lemma ReadsTwo(a: nat, b: nat)
    requires a < 10 && b < 10
    ensures Reads([Digit(a), Digit(b)], 10 * a + b)
  {
    assert [Digit(a), Digit(b)] == [Digit(a)] + [Digit(b)];
    assert Reads([Digit(a)], a);
    ReadsSnoc([Digit(a)], a, b);
  }

  lemma RenderShape(cents: nat)
    ensures Render(cents) != "" && IsDigit(Render(cents)[0])
    ensures forall i | 0 <= i < |Render(cents)| ::
      IsDigit(Render(cents)[i]) || Render(cents)[i] == ',' || Render(cents)[i] == '.'
  {
    GroupedShape(cents / 100);
  }

  lemma HundredthsAdd(n: nat, f: nat, cents: nat)
    requires cents == 100 * n + f
    ensures n as real + f as real / 100.0 == cents as real / 100.0
  {
  }

  // ---------------------------------------------------------------- main result

  /** One of the labels, in any case. */
  ghost predicate IsLabel(s: string) {
    exists k :: 0 <= k < |LABELS| && |LABELS[k]| == |s| && Begins(s, LABELS[k])
  }

  lemma LabelsDiffer(s: string, j: nat, k: nat)
    requires j < |LABELS| && k < |LABELS| && Begins(s, LABELS[j]) && Begins(s, LABELS[k])
    ensures j == k
  {
    assert Lower(s[0]) == LABELS[j][0] == LABELS[k][0];
    assert Lower(s[2]) == LABELS[j][2] == LABELS[k][2];
  }

  lemma {:induction false} LabelFound(s: string, k: nat, from: nat)
    requires from <= k < |LABELS| && Begins(s, LABELS[k])
    ensures LabelAt(s, from) == |LABELS[k]|
    decreases k - from
  {
    if Begins(s, LABELS[from]) {
      LabelsDiffer(s, from, k);
    } else {
      LabelFound(s, k, from + 1);
    }
  }

  lemma NumberIs(s: string, g: nat)
    requires g <= |s| && (forall i | 0 <= i < g :: InNumber(s[i])) && (g == |s| || !InNumber(s[g]))
    ensures NumberLength(s) == g
  {
    NumberAtLeast(s, g);
    NumberStops(s);
  }

  lemma WesternConcat(a: string, b: string)
    ensures ArabicToWestern(a + b) == ArabicToWestern(a) + ArabicToWestern(b)
  {
  }

  lemma LabelIsWestern(s: string)
    requires IsLabel(s)
    ensures ArabicToWestern(s) == s && s != ""
  {
    var k :| 0 <= k < |LABELS| && |LABELS[k]| == |s| && Begins(s, LABELS[k]);
    forall i | 0 <= i < |s| ensures WesternChar(s[i]) == s[i] {
      assert Lower(s[i]) == LABELS[k][i];
      LabelChars(k, i);
    }
  }

  lemma LabelChars(k: nat, i: nat)
    requires k < |LABELS| && i < |LABELS[k]|
    ensures !IsArabicDigit(LABELS[k][i]) && LABELS[k][i] != ARABIC_COMMA
  {
  }

  /** What the expression captures when the text begins with a label. */
  lemma CapturesNumber(tag: string, filler: string, number: string, tail: string)
    requires IsLabel(tag) && tag != ""
    requires forall i | 0 <= i < |filler| :: !IsAnyDigit(filler[i])
    requires number != "" && IsDigit(number[0]) && forall i | 0 <= i < |number| :: InNumber(number[i])
    requires tail == "" || !InNumber(tail[0])
    ensures AmountRe(tag + (filler + (number + tail))) == Some(number)
  {
    var after := filler + (number + tail);
    var s := tag + after;
    var k :| 0 <= k < |LABELS| && |LABELS[k]| == |tag| && Begins(tag, LABELS[k]);
    LabelFound(s, k, 0);
    hide LabelAt, Begins;
    assert s[|tag|..] == after;
    FillerIs(after, |filler|);
    assert after[|filler|..] == number + tail;
    NumberIs(number + tail, |number|);
    assert (number + tail)[..|number|] == number;
  }

  lemma WesternFiller(filler: string, tail: string)
    requires forall i | 0 <= i < |filler| :: !IsAnyDigit(filler[i])
    requires tail == "" || !InNumber(tail[0])
    ensures forall i | 0 <= i < |filler| :: !IsAnyDigit(ArabicToWestern(filler)[i])
    ensures ArabicToWestern(tail) == "" || !InNumber(ArabicToWestern(tail)[0])
  {
  }

  /** `name` is one of the six, and `tag` is that label with any of its letters in upper case. */
  predicate Spells(tag: string, name: string) {
    && name in {"\U{0627}\U{0644}\U{0645}\U{0628}\U{0644}\U{063A}", "\U{0645}\U{0628}\U{0644}\U{063A}", "amount",
                 "total", "\U{0625}\U{062C}\U{0645}\U{0627}\U{0644}\U{064A}",
                 "\U{0627}\U{0644}\U{0642}\U{064A}\U{0645}\U{0629}"}
    && |tag| == |name|
    && forall i | 0 <= i < |tag| ::
         tag[i] == name[i] || ('a' <= name[i] <= 'z' && tag[i] as int == name[i] as int - 32)
  }

  lemma SpellsLabel(tag: string, name: string)
    requires Spells(tag, name)
    ensures IsLabel(tag)
  {
    assert name in {LABELS[0], LABELS[1], LABELS[2], LABELS[3], LABELS[4], LABELS[5]};
    var k :| 0 <= k < |LABELS| && LABELS[k] == name;
    forall i | 0 <= i < |tag| ensures Lower(tag[i]) == LABELS[k][i] {
      LabelIsLower(k, i);
    }
  }

  lemma LabelIsLower(k: nat, i: nat)
    requires k < |LABELS| && i < |LABELS[k]|
    ensures Lower(LABELS[k][i]) == LABELS[k][i]
  {
  }

  /** `number` is the text `r`, some of its digits written in Arabic-Indic and some of its commas in
      Arabic. */
  predicate Writes(number: string, r: string) {
    && |number| == |r|
    && forall i | 0 <= i < |r| ::
         || number[i] == r[i]
         || ('0' <= r[i] <= '9' && number[i] as int == 0x660 + (r[i] as int - '0' as int))
         || (r[i] == ',' && number[i] as int == 0x60C)
  }

  lemma WesternNumber(number: string, cents: nat)
    requires Writes(number, Render(cents))
    ensures ArabicToWestern(number) == Render(cents)
  {
    RenderShape(cents);
    hide Render;
  }

  /** A label, filler without digits, an amount rendered with thousands commas and two decimals in
      Western or Arabic-Indic digits, and a character that is no digit, comma or point: the amount is
      read back for every number of hundredths but 0, which is not taken for an amount. */
  lemma LabelledAmountReadsBack(tag: string, name: string, filler: string, number: string, tail: string, cents: nat)
    requires Spells(tag, name) && Writes(number, Render(cents))
    requires forall i | 0 <= i < |filler| ::
      !('0' <= filler[i] <= '9') && !('\U{0660}' <= filler[i] <= '\U{0669}')
    requires tail == "" ||
      (!('0' <= tail[0] <= '9') && !('\U{0660}' <= tail[0] <= '\U{0669}') && tail[0] !in {',', '\U{060C}', '.'})
    ensures LabelledAmount(tag + (filler + (number + tail))) == if cents > 0 then Some(cents as real / 100.0) else None
  {
    SpellsLabel(tag, name);
    WesternNumber(number, cents);
    assert forall i | 0 <= i < |filler| :: !IsAnyDigit(filler[i]);
    assert tail == "" || !InNumber(tail[0]);
    ReadsBack(tag, filler, number, tail, cents);
  }

  lemma ReadsBack(tag: string, filler: string, number: string, tail: string, cents: nat)
    requires IsLabel(tag) && ArabicToWestern(number) == Render(cents)
    requires forall i | 0 <= i < |filler| :: !IsAnyDigit(filler[i])
    requires tail == "" || !InNumber(tail[0])
    ensures LabelledAmount(tag + (filler + (number + tail))) == if cents > 0 then Some(cents as real / 100.0) else None
  {
    hide ArabicToWestern, Render, AmountRe, ParseFloat, RemoveCommas, IsLabel;
    WesternConcat(number, tail);
    WesternConcat(filler, number + tail);
    WesternConcat(tag, filler + (number + tail));
    LabelIsWestern(tag);
    WesternFiller(filler, tail);
    RenderShape(cents);
    CapturesNumber(tag, ArabicToWestern(filler), Render(cents), ArabicToWestern(tail));
    RenderParses(cents);
  }
}
