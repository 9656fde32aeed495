/**
 * The act drafter: labelled fields, the amount and the notes are pulled out
 * of the facts by regular expressions, the amount is grouped by thousands and
 * looked up in a table of French number words, the date is spelt out in
 * French, and the results fill the slots of the act template.
 *
 * The label pattern `LABEL[:\s]*(.+?)(?=\n|$)` with flag `i` is modelled as
 * the regular-expression engine runs it: leftmost start, greedy separator
 * run, then a lazy capture of at least one character that is not a line
 * terminator, ending where a `\n` or the end of input follows, backtracking
 * through the separator run when no such end exists.
 */
module GeminiService {
  import opened Wrappers
  import opened Text

  const REQUERANT_LABEL: string := "REQUÉRANT"
  const DESTINATAIRE_LABEL: string := "DESTINATAIRE"
  const DEFAULT_REQUERANT: string := "LE CRÉANCIER"
  const DEFAULT_DESTINATAIRE: string := "LE DÉBITEUR"

  /**
   * Which characters may sit between a tag and its value. `AnySpace` is the
   * class `[:\s]` as written, which also crosses line breaks; `SameLine`
   * stops at a line break.
   */
  datatype SeparatorClass = AnySpace | SameLine

  predicate IsSeparator(cls: SeparatorClass, c: char) {
    c == ':' || (IsJsSpace(c) && (cls == AnySpace || !IsLineTerminator(c)))
  }

  /** `tag` matches at `p` under the case-insensitive comparison of flag `i`. */
  predicate LabelAt(s: string, tag: string, p: nat) {
    p + |tag| <= |s| && forall j :: 0 <= j < |tag| ==> UpperChar(s[p + j]) == UpperChar(tag[j])
  }

  predicate HasLabel(s: string, tag: string) {
    exists p: nat | p <= |s| :: LabelAt(s, tag, p)
  }

  /** The end of the greedy separator run that starts at `q`. */
  function SeparatorsEnd(s: string, cls: SeparatorClass, q: nat): (e: nat)
    requires q <= |s|
    ensures q <= e <= |s|
    ensures forall i :: q <= i < e ==> IsSeparator(cls, s[i])
    ensures e == |s| || !IsSeparator(cls, s[e])
    decreases |s| - q
  {
    if q < |s| && IsSeparator(cls, s[q]) then SeparatorsEnd(s, cls, q + 1) else q
  }

  /** The first line terminator at or after `k`, or the end of input. */
  function LineEnd(s: string, k: nat): (e: nat)
    requires k <= |s|
    ensures k <= e <= |s|
    ensures forall i :: k <= i < e ==> !IsLineTerminator(s[i])
    ensures e == |s| || IsLineTerminator(s[e])
    decreases |s| - k
  {
    if k < |s| && !IsLineTerminator(s[k]) then LineEnd(s, k + 1) else k
  }

  /**
   * `(.+?)(?=\n|$)` succeeds from `k`: the lazy capture can only stop at the
   * first line terminator, and only if that is a `\n` or the end of input.
   */
  predicate ValueAt(s: string, k: nat)
    requires k <= |s|
  {
    var e := LineEnd(s, k);
    e > k && (e == |s| || s[e] == '\n')
  }

  /** Backtracking through the separator run: the longest run `[lo, k)` after which a value matches. */
  function Backtrack(s: string, lo: nat, k: nat): (r: Option<nat>)
    requires lo <= k <= |s|
    ensures r.Some? ==> (lo <= r.value <= k && ValueAt(s, r.value)
      && forall i :: r.value < i <= k ==> !ValueAt(s, i))
    ensures r.None? ==> forall i :: lo <= i <= k ==> !ValueAt(s, i)
    decreases k - lo
  {
    if ValueAt(s, k) then Some(k)
    else if k == lo then None
    else Backtrack(s, lo, k - 1)
  }

  /** A match: the tag starts at `start`, the captured value is `[valueStart, valueEnd)`. */
  datatype FieldMatch = FieldMatch(start: nat, valueStart: nat, valueEnd: nat)

  /**
   * `m` is a match of the pattern: the tag at `m.start`, separators up to the
   * value, a value free of line terminators, then a `\n` or the end of input.
   */
  predicate IsMatch(s: string, tag: string, cls: SeparatorClass, m: FieldMatch) {
    && LabelAt(s, tag, m.start)
    && m.start + |tag| <= m.valueStart < m.valueEnd <= |s|
    && (forall i :: m.start + |tag| <= i < m.valueStart ==> IsSeparator(cls, s[i]))
    && (forall i :: m.valueStart <= i < m.valueEnd ==> !IsLineTerminator(s[i]))
    && (m.valueEnd == |s| || s[m.valueEnd] == '\n')
  }

  /** The match that starts at `p`, if any. */
  function MatchAt(s: string, tag: string, cls: SeparatorClass, p: nat): (r: Option<FieldMatch>)
    requires p <= |s|
    ensures r.Some? ==> r.value.start == p && LabelAt(s, tag, p)
    ensures LabelAt(s, tag, p) && ValueAt(s, p + |tag|) ==> r.Some?
  {
    if !LabelAt(s, tag, p) then None
    else
      var lo := p + |tag|;
      match Backtrack(s, lo, SeparatorsEnd(s, cls, lo))
      case None => None
      case Some(k) => Some(FieldMatch(p, k, LineEnd(s, k)))
  }

  /** What the pattern finds at `p` is a match in the sense of `IsMatch`. */
  lemma MatchAtIsMatch(s: string, tag: string, cls: SeparatorClass, p: nat)
    requires p <= |s| && MatchAt(s, tag, cls, p).Some?
    ensures IsMatch(s, tag, cls, MatchAt(s, tag, cls, p).value)
  {
  }

  /** The leftmost match starting at or after `from`. */
  function FindMatch(s: string, tag: string, cls: SeparatorClass, from: nat): (r: Option<FieldMatch>)
    requires from <= |s|
    ensures r.Some? ==> (from <= r.value.start <= |s| && MatchAt(s, tag, cls, r.value.start) == r
      && NoMatchBetween(s, tag, cls, from, r.value.start))
    ensures r.None? ==> NoMatchBetween(s, tag, cls, from, |s| + 1)
    decreases |s| - from
  {
    if MatchAt(s, tag, cls, from).Some? then MatchAt(s, tag, cls, from)
    else if from == |s| then None
    else
      var r := FindMatch(s, tag, cls, from + 1);
      NoMatchExtend(s, tag, cls, from, if r.Some? then r.value.start else |s| + 1);
      r
  }

  /** No match starts in `[lo, hi)`. */
  predicate NoMatchBetween(s: string, tag: string, cls: SeparatorClass, lo: nat, hi: nat) {
    forall p :: lo <= p < hi && p <= |s| ==> MatchAt(s, tag, cls, p).None?
  }

  lemma NoMatchExtend(s: string, tag: string, cls: SeparatorClass, lo: nat, hi: nat)
    requires lo < hi && lo <= |s| && MatchAt(s, tag, cls, lo).None? && NoMatchBetween(s, tag, cls, lo + 1, hi)
    ensures NoMatchBetween(s, tag, cls, lo, hi)
  {
  }

  /** `s.match(re)?.[1]?.trim() || fallback`. */
  function ExtractField(s: string, tag: string, cls: SeparatorClass, fallback: string): (r: string)
    ensures FindMatch(s, tag, cls, 0).None? ==> r == fallback
    ensures var m := FindMatch(s, tag, cls, 0);
      m.Some? ==> r == (var v := Trim(s[m.value.valueStart..m.value.valueEnd]); if v == [] then fallback else v)
    ensures r == fallback || (r != [] && !IsJsSpace(r[0]) && !IsJsSpace(r[|r| - 1]))
  {
    match FindMatch(s, tag, cls, 0)
    case None => fallback
    case Some(m) =>
      var v := Trim(s[m.valueStart..m.valueEnd]);
      if v == [] then fallback else v
  }

  /** A text in which the tag never occurs leaves the field at its fallback. */
  lemma MissingLabelGivesFallback(s: string, tag: string, cls: SeparatorClass, fallback: string)
    requires !HasLabel(s, tag)
    ensures ExtractField(s, tag, cls, fallback) == fallback
  {
    assert FindMatch(s, tag, cls, 0).None?;
  }

  /** `s.replace(re, '')` with flag `g`, from `from` on: every match is cut out, the search resuming after it. */
  function RemoveFrom(s: string, tag: string, cls: SeparatorClass, from: nat): (r: string)
    requires from <= |s|
    ensures |r| <= |s| - from
    decreases |s| - from
  {
    match FindMatch(s, tag, cls, from)
    case None => s[from..]
    case Some(m) => s[from..m.start] + RemoveFrom(s, tag, cls, m.valueEnd)
  }

  /** The notes: both labelled segments cut out, the rest trimmed. */
  function Notes(facts: string, cls: SeparatorClass): (r: string)
    ensures |r| <= |facts|
  {
    Trim(RemoveFrom(RemoveFrom(facts, REQUERANT_LABEL, cls, 0), DESTINATAIRE_LABEL, cls, 0))
  }

  /** With no tag occurrence from `from` on, nothing is removed. */
  lemma {:induction false} RemoveNothing(s: string, tag: string, cls: SeparatorClass, from: nat)
    requires from <= |s| && !HasLabel(s, tag)
    ensures RemoveFrom(s, tag, cls, from) == s[from..]
  {
    assert FindMatch(s, tag, cls, from).None?;
  }

  /** Facts that carry neither tag are their own notes, trimmed. */
  lemma UnlabelledFactsAreNotes(facts: string, cls: SeparatorClass)
    requires !HasLabel(facts, REQUERANT_LABEL) && !HasLabel(facts, DESTINATAIRE_LABEL)
    ensures Notes(facts, cls) == Trim(facts)
  {
    RemoveNothing(facts, REQUERANT_LABEL, cls, 0);
    assert facts[0..] == facts;
    RemoveNothing(facts, DESTINATAIRE_LABEL, cls, 0);
  }

  /** The end of the run of digits that starts at `k`. */
  function DigitRunEnd(s: string, k: nat): (e: nat)
    requires k <= |s|
    ensures k <= e <= |s|
    decreases |s| - k
  {
    if k < |s| && IsDigit(s[k]) then DigitRunEnd(s, k + 1) else k
  }

  /** The digit run is all digits and stops at a non-digit or at the end. */
  lemma {:induction false} DigitRun(s: string, k: nat)
    requires k <= |s|
    ensures forall i :: k <= i < DigitRunEnd(s, k) ==> IsDigit(s[i])
    ensures DigitRunEnd(s, k) == |s| || !IsDigit(s[DigitRunEnd(s, k)])
    decreases |s| - k
  {
    if k < |s| && IsDigit(s[k]) {
      DigitRun(s, k + 1);
    }
  }

  /** `(?:\.\d{3})*`, greedy: the end of the `.ddd` groups that follow `k`. */
  function DotGroupsEnd(s: string, k: nat): (e: nat)
    requires k <= |s|
    ensures k <= e <= |s|
    ensures forall i :: k <= i < e ==> IsDigit(s[i]) || s[i] == '.'
    decreases |s| - k
  {
    if k + 4 <= |s| && s[k] == '.' && IsDigit(s[k + 1]) && IsDigit(s[k + 2]) && IsDigit(s[k + 3])
    then DotGroupsEnd(s, k + 4)
    else k
  }

  /** The first digit at or after `k`: where the leftmost match of `\d+` begins. */
  function FirstDigit(s: string, k: nat): (r: Option<nat>)
    requires k <= |s|
    ensures r.Some? ==> k <= r.value < |s| && IsDigit(s[r.value])
    ensures r.Some? ==> forall i :: k <= i < r.value ==> !IsDigit(s[i])
    ensures r.None? ==> forall i :: k <= i < |s| ==> !IsDigit(s[i])
    decreases |s| - k
  {
    if k == |s| then None
    else if IsDigit(s[k]) then Some(k)
    else FirstDigit(s, k + 1)
  }

  /** `s.replace(/c/g, '')`: every occurrence of `c` deleted, the rest kept in order. */
  function Without(s: string, c: char): (r: string)
    ensures |r| <= |s|
  {
    if s == [] then [] else (if s[0] == c then [] else [s[0]]) + Without(s[1..], c)
  }

  /** Deletion keeps exactly the characters other than `c`. */
  lemma {:induction false} WithoutMembers(s: string, c: char)
    ensures forall x :: x in Without(s, c) <==> x in s && x != c
  {
    if s != [] {
      WithoutMembers(s[1..], c);
      assert s == [s[0]] + s[1..];
    }
  }

  lemma {:induction false} WithoutAppend(a: string, b: string, c: char)
    ensures Without(a + b, c) == Without(a, c) + Without(b, c)
  {
    if a == [] {
      assert a + b == b;
    } else {
      assert (a + b)[1..] == a[1..] + b;
      WithoutAppend(a[1..], b, c);
    }
  }

  /**
   * The amount in figures: the first run of digits with the `.ddd` groups that
   * follow it, dots deleted; `"0"` when the facts hold no digit.
   */
  function AmountDigits(s: string): (r: string)
    ensures r != [] && AllDigits(r)
    ensures (forall i :: 0 <= i < |s| ==> !IsDigit(s[i])) <==> r == "0" && !Contains(s, "0")
  {
    match FirstDigit(s, 0)
    case None =>
      assert !Contains(s, "0") by {
        forall i | 0 <= i <= |s| ensures !OccursAt(s, "0", i) {
          if i + 1 <= |s| {
            assert s[i..i + 1][0] == s[i];
          }
        }
      }
      "0"
    case Some(p) =>
      var e := DotGroupsEnd(s, DigitRunEnd(s, p));
      DigitRun(s, p);
      var r := Without(s[p..e], '.');
      WithoutMembers(s[p..e], '.');
      assert s[p] in s[p..e];
      assert forall i :: 0 <= i < |r| ==> r[i] in s[p..e];
      if r == "0" then
        assert OccursAt(s, "0", p) by {
          assert s[p] in r;
        }
        r
      else r
  }

  /**
   * Reference grouping of a numeral: a leading group of one to three digits,
   * then groups of exactly three, each preceded by `sep`.
   */
  function GroupSpec(d: string, sep: char): (r: string)
    ensures d != [] ==> r != [] && r[0] == d[0]
    ensures |d| <= 3 ==> r == d
    decreases |d|
  {
    if |d| <= 3 then d
    else
      var h := (|d| - 1) % 3 + 1;
      d[..h] + [sep] + GroupSpec(d[h..], sep)
  }

  /** Deleting the separators from a grouped numeral gives the numeral back. */
  lemma {:induction false} UngroupSpec(d: string, sep: char)
    requires sep !in d
    ensures Without(GroupSpec(d, sep), sep) == d
    decreases |d|
  {
    if |d| <= 3 {
      WithoutNothing(d, sep);
    } else {
      var h := GroupSplit(d, sep);
      SplitWithout(d, h, sep);
      UngroupSpec(d[h..], sep);
      UngroupJoin(d[..h], sep, GroupSpec(d[h..], sep), d[h..]);
    }
  }

  /** Both halves of a numeral free of `sep` are free of it, and together they are the numeral. */
  lemma SplitWithout(d: string, h: nat, sep: char)
    requires sep !in d && h <= |d|
    ensures sep !in d[..h] && sep !in d[h..] && d[..h] + d[h..] == d
  {
  }

  /** Deleting the separators from a group, a separator and a tail keeps the group and ungroups the tail. */
  lemma UngroupJoin(p: string, sep: char, g: string, u: string)
    requires sep !in p && Without(g, sep) == u
    ensures Without(p + [sep] + g, sep) == p + u
  {
    WithoutAppend(p + [sep], g, sep);
    WithoutAppend(p, [sep], sep);
    assert Without([sep], sep) == [] by {
      assert [sep][1..] == [];
    }
    WithoutNothing(p, sep);
    assert p + [] == p;
  }

  lemma {:induction false} WithoutNothing(s: string, c: char)
    requires c !in s
    ensures Without(s, c) == s
  {
    if s != [] {
      WithoutNothing(s[1..], c);
    }
  }

  /**
   * `(\d)(?=(\d{3})+(?!\d))` matches at `i`: a digit followed by a run of
   * digits whose length is a positive multiple of three.
   */
  predicate BreakAfter(s: string, i: nat)
    requires i < |s|
  {
    IsDigit(s[i]) && var n := DigitRunEnd(s, i + 1) - (i + 1); n > 0 && n % 3 == 0
  }

  /** `s.replace(/(\d)(?=(\d{3})+(?!\d))/g, '$1 ')` from position `i` on: a space after every digit the pattern matches. */
  function GroupFrom(s: string, i: nat): (r: string)
    requires i <= |s|
    ensures |r| >= |s| - i
    decreases |s| - i
  {
    if i == |s| then [] else [s[i]] + (if BreakAfter(s, i) then " " else "") + GroupFrom(s, i + 1)
  }

  /** The amount in figures as displayed: thousands separated by spaces. */
  function GroupThousands(s: string): (r: string)
    ensures |r| >= |s|
  {
    GroupFrom(s, 0)
  }

  /** Positions where the pattern does not match copy their character and nothing else. */
  lemma {:induction false} CopyRun(s: string, i: nat, j: nat)
    requires i <= j <= |s|
    requires forall x :: i <= x < j ==> !BreakAfter(s, x)
    ensures GroupFrom(s, i) == s[i..j] + GroupFrom(s, j)
    decreases j - i
  {
    if i < j {
      assert !BreakAfter(s, i);
      assert GroupFrom(s, i) == [s[i]] + GroupFrom(s, i + 1);
      CopyRun(s, i + 1, j);
      assert s[i..j] == [s[i]] + s[i + 1..j];
    }
  }

  /** On a numeral the pattern breaks exactly where a multiple of three digits remains. */
  lemma DigitsBreak(s: string, i: nat)
    requires AllDigits(s) && i < |s|
    ensures BreakAfter(s, i) <==> |s| - 1 - i > 0 && (|s| - 1 - i) % 3 == 0
  {
    RunEndAt(s, i + 1, |s|);
  }

  /** The arithmetic of the leading group: `h` digits, then a multiple of three remains. */
  lemma HeadNoBreak(t: nat, x: nat)
    requires 0 < t && x < (t - 1) % 3
    ensures var n := t - 1 - x; !(n > 0 && n % 3 == 0)
  {
  }

  /** The length of the leading group of a `t`-digit numeral. */
  lemma HeadLength(t: nat) returns (h: nat)
    requires 0 < t
    ensures h == (t - 1) % 3 + 1 && 1 <= h <= t
  {
    h := (t - 1) % 3 + 1;
  }

  lemma HeadBreak(t: nat)
    requires 0 < t
    ensures var h := (t - 1) % 3 + 1; h <= t && (t - h) % 3 == 0 && (t - h > 0 <==> t > 3)
  {
  }

  /** Inside the leading group the pattern never matches. */
  lemma NoBreakInHead(s: string, i: nat)
    requires AllDigits(s) && i < |s|
    ensures forall x :: i <= x < i + (|s| - i - 1) % 3 ==> !BreakAfter(s, x)
  {
    forall x | i <= x < i + (|s| - i - 1) % 3 ensures !BreakAfter(s, x) {
      DigitsBreak(s, x);
      HeadNoBreak(|s| - i, x - i);
    }
  }

  /** At the end of the leading group the pattern matches unless the numeral ends there. */
  lemma BreakAfterHead(s: string, i: nat)
    requires AllDigits(s) && i < |s|
    ensures var h := (|s| - i - 1) % 3 + 1; i + h <= |s| && (BreakAfter(s, i + h - 1) <==> i + h < |s|)
  {
    DigitsBreak(s, i + (|s| - i - 1) % 3);
    HeadBreak(|s| - i);
  }

  /** From `i` the replacement copies the leading group of `h` digits, then breaks unless the numeral ends there. */
  lemma HeadCopy(s: string, i: nat, h: nat)
    requires AllDigits(s) && i < |s| && h == (|s| - i - 1) % 3 + 1
    ensures i + h <= |s|
    ensures i + h < |s| ==> GroupFrom(s, i) == s[i..i + h] + " " + GroupFrom(s, i + h)
    ensures i + h == |s| ==> GroupFrom(s, i) == s[i..]
  {
    NoBreakInHead(s, i);
    CopyRun(s, i, i + h - 1);
    BreakAfterHead(s, i);
    assert s[i..i + h] == s[i..i + h - 1] + [s[i + h - 1]];
    if i + h == |s| {
      assert GroupFrom(s, i + h) == [];
      assert s[i..i + h] + "" + [] == s[i..];
    }
  }

  /** On a numeral the global replacement groups exactly as the reference does. */
  lemma {:induction false} GroupFromSpec(s: string, i: nat)
    requires AllDigits(s) && i <= |s|
    ensures GroupFrom(s, i) == GroupSpec(s[i..], ' ')
    decreases |s| - i, 1
  {
    if i < |s| {
      var h := HeadLength(|s| - i);
      if i + h < |s| {
        GroupFromLong(s, i, h);
      } else {
        HeadCopy(s, i, h);
        SpecShortAt(s, i, h);
      }
    } else {
      assert GroupFrom(s, i) == [] && s[i..] == [];
    }
  }

  /** More than the leading group remains: the group, a space, then the rest grouped in turn. */
  lemma {:induction false} GroupFromLong(s: string, i: nat, h: nat)
    requires AllDigits(s) && i + h < |s| && h == (|s| - i - 1) % 3 + 1
    ensures GroupFrom(s, i) == GroupSpec(s[i..], ' ')
    decreases |s| - i, 0
  {
    HeadCopy(s, i, h);
    GroupFromSpec(s, i + h);
    SpecStepAt(s, i, h);
  }

  /** The reference grouping of a suffix: its leading group, a separator, then the rest grouped. */
  lemma SpecStepAt(s: string, i: nat, h: nat)
    requires i + h < |s| && h == (|s| - i - 1) % 3 + 1
    ensures GroupSpec(s[i..], ' ') == s[i..i + h] + " " + GroupSpec(s[i + h..], ' ')
  {
    var d := s[i..];
    assert |d| == |s| - i;
    HeadBreak(|s| - i);
    assert d[..h] == s[i..i + h] && d[h..] == s[i + h..];
  }

  /** A suffix no longer than its leading group is its own grouping. */
  lemma SpecShortAt(s: string, i: nat, h: nat)
    requires i < |s| <= i + h && h == (|s| - i - 1) % 3 + 1
    ensures GroupSpec(s[i..], ' ') == s[i..]
  {
    HeadBreak(|s| - i);
  }

  /** The displayed figures are the reference grouping, and deleting the spaces gives the numeral back. */
  lemma GroupThousandsSpec(d: string)
    requires AllDigits(d)
    ensures GroupThousands(d) == GroupSpec(d, ' ')
    ensures Without(GroupThousands(d), ' ') == d
  {
    GroupFromSpec(d, 0);
    assert d[0..] == d;
    UngroupSpec(d, ' ');
  }

  /**
   * The amount written with dots between thousands, `x` before it and `y`
   * after it, is read back as its digits, provided `x` holds no digit and `y`
   * starts with neither a digit nor a dot.
   */
  lemma AmountOfDottedNumeral(x: string, d: string, y: string)
    requires d != [] && AllDigits(d)
    requires forall i :: 0 <= i < |x| ==> !IsDigit(x[i])
    requires y == [] || (!IsDigit(y[0]) && y[0] != '.')
    ensures AmountDigits(x + GroupSpec(d, '.') + y) == d
  {
    var g := GroupSpec(d, '.');
    var s := x + g + y;
    assert s[|x|] == d[0];
    assert FirstDigit(s, 0) == Some(|x|);
    assert s[|x|..|x| + |g|] == g;
    assert StopsAt(s, |x| + |g|);
    DottedEnd(s, |x|, d);
    assert s[|x|..|x| + |g|] == g;
    UngroupSpec(d, '.');
  }

  /**
   * The amount written as a plain run of digits, `x` before it and `y` after
   * it, is read back as those digits, provided `x` holds no digit and `y`
   * starts with neither a digit nor a dot.
   */
  lemma AmountOfPlainNumeral(x: string, d: string, y: string)
    requires d != [] && AllDigits(d)
    requires forall i :: 0 <= i < |x| ==> !IsDigit(x[i])
    requires y == [] || (!IsDigit(y[0]) && y[0] != '.')
    ensures AmountDigits(x + d + y) == d
  {
    var s := x + d + y;
    assert s[|x|] == d[0];
    assert FirstDigit(s, 0) == Some(|x|);
    assert d + [] == d;
    assert s[|x|..|x| + |d|] == d;
    assert StopsAt(s, |x| + |d|);
    HeadThenGroups(s, |x|, d, []);
    WithoutAbsent(d, '.');
  }

  /** The usual way of writing the amount, without dots, reads back as its digits. */
  lemma PlainAmountExample()
    ensures AmountDigits("Montant: 150000 FCFA") == "150000"
  {
    var x, d, y := "Montant: ", "150000", " FCFA";
    assert forall i :: 0 <= i < |x| ==> !IsDigit(x[i]);
    assert AllDigits(d) && !IsDigit(y[0]) && y[0] != '.';
    AmountOfPlainNumeral(x, d, y);
    assert x + d + y == "Montant: 150000 FCFA";
  }

  /** Deleting a character that does not occur changes nothing. */
  lemma {:induction false} WithoutAbsent(s: string, c: char)
    requires forall i :: 0 <= i < |s| ==> s[i] != c
    ensures Without(s, c) == s
  {
    if s != [] {
      WithoutAbsent(s[1..], c);
    }
  }

  /** `t` is a run of `.ddd` groups. */
  predicate DotGroups(t: string)
    decreases |t|
  {
    t == [] || (|t| >= 4 && t[0] == '.' && IsDigit(t[1]) && IsDigit(t[2]) && IsDigit(t[3]) && DotGroups(t[4..]))
  }

  /** `e` stops the amount pattern: the character there, if any, neither extends a digit run nor starts a dot group. */
  predicate StopsAt(s: string, e: nat) {
    e == |s| || (e < |s| && !IsDigit(s[e]) && s[e] != '.')
  }

  lemma SliceAt(s: string, k: nat, t: string, i: nat)
    requires k + |t| <= |s| && s[k..k + |t|] == t && i < |t|
    ensures s[k + i] == t[i]
  {
    assert s[k..k + |t|][i] == s[k + i];
  }

  lemma SliceRest(s: string, k: nat, t: string, n: nat)
    requires k + |t| <= |s| && s[k..k + |t|] == t && n <= |t|
    ensures s[k + n..k + |t|] == t[n..]
  {
    assert s[k + n..k + |t|] == s[k..k + |t|][n..];
  }

  /** A run of `.ddd` groups is consumed to its end. */
  lemma {:induction false} GroupsEnd(s: string, k: nat, t: string)
    requires DotGroups(t) && k + |t| <= |s| && s[k..k + |t|] == t && StopsAt(s, k + |t|)
    ensures DotGroupsEnd(s, k) == k + |t|
    decreases |t|
  {
    if t != [] {
      SliceAt(s, k, t, 0);
      SliceAt(s, k, t, 1);
      SliceAt(s, k, t, 2);
      SliceAt(s, k, t, 3);
      SliceRest(s, k, t, 4);
      GroupsEnd(s, k + 4, t[4..]);
    }
  }

  /** After the leading group, a grouped numeral is a run of `.ddd` groups. */
  lemma {:induction false} GroupedTail(d: string)
    requires |d| >= 3 && |d| % 3 == 0 && AllDigits(d)
    ensures DotGroups(['.'] + GroupSpec(d, '.'))
    decreases |d|
  {
    var t := ['.'] + GroupSpec(d, '.');
    if |d| == 3 {
      assert t == ['.'] + d;
      assert t[4..] == [];
    } else {
      ThreeDivides(|d|);
      GroupedTail(d[3..]);
      GroupedStep(d);
    }
  }

  lemma GroupedStep(d: string)
    requires |d| > 3 && (|d| - 1) % 3 == 2 && (|d| - 3) % 3 == 0 && AllDigits(d)
    requires DotGroups(['.'] + GroupSpec(d[3..], '.'))
    ensures DotGroups(['.'] + GroupSpec(d, '.'))
  {
    var h := GroupSplit(d, '.');
    var t' := ['.'] + GroupSpec(d[3..], '.');
    var t := ['.'] + GroupSpec(d, '.');
    assert t == ['.'] + d[..3] + t';
    assert t[1] == d[0] && t[2] == d[1] && t[3] == d[2];
    assert t[4..] == t';
  }

  lemma ThreeDivides(n: nat)
    requires n >= 3 && n % 3 == 0
    ensures (n - 1) % 3 == 2 && (n - 3) % 3 == 0
  {
  }

  /** A numeral of more than three digits splits into its leading group and the rest, a multiple of three. */
  lemma GroupSplit(d: string, sep: char) returns (h: nat)
    requires |d| > 3
    ensures h == (|d| - 1) % 3 + 1 && 1 <= h <= 3 && |d[h..]| >= 3 && |d[h..]| % 3 == 0
    ensures GroupSpec(d, sep) == d[..h] + [sep] + GroupSpec(d[h..], sep)
  {
    h := (|d| - 1) % 3 + 1;
  }

  /** A grouped numeral is its leading group followed by a run of `.ddd` groups. */
  lemma GroupShape(d: string) returns (h: nat, t: string)
    requires d != [] && AllDigits(d)
    ensures 1 <= h <= 3 && h <= |d| && GroupSpec(d, '.') == d[..h] + t && DotGroups(t)
    ensures AllDigits(d[..h])
  {
    if |d| <= 3 {
      h, t := |d|, [];
      assert d[..h] + t == d;
    } else {
      h := GroupSplit(d, '.');
      DigitsSplit(d, h);
      t := ['.'] + GroupSpec(d[h..], '.');
      GroupedTail(d[h..]);
      assert d[..h] + [('.')] + GroupSpec(d[h..], '.') == d[..h] + t;
    }
  }

  /** Both halves of a numeral are numerals. */
  lemma DigitsSplit(d: string, h: nat)
    requires AllDigits(d) && h <= |d|
    ensures AllDigits(d[..h]) && AllDigits(d[h..])
  {
  }

  /** Where `p + t` sits in `s`, the digits of `p` come first and `t` follows. */
  lemma SplitSlice(s: string, k: nat, p: string, t: string)
    requires AllDigits(p) && k + |p| + |t| <= |s| && s[k..k + |p| + |t|] == p + t
    ensures forall i :: k <= i < k + |p| ==> IsDigit(s[i])
    ensures s[k + |p|..k + |p| + |t|] == t
  {
    forall i | k <= i < k + |p| ensures IsDigit(s[i]) {
      SliceAt(s, k, p + t, i - k);
    }
    SliceRest(s, k, p + t, |p|);
  }

  /** After a grouped numeral, the digit run and the dot groups stop exactly at its end. */
  lemma DottedEnd(s: string, k: nat, d: string)
    requires d != [] && AllDigits(d)
    requires var g := GroupSpec(d, '.'); k + |g| <= |s| && s[k..k + |g|] == g && StopsAt(s, k + |g|)
    ensures DotGroupsEnd(s, DigitRunEnd(s, k)) == k + |GroupSpec(d, '.')|
  {
    var h, t := GroupShape(d);
    HeadThenGroups(s, k, d[..h], t);
  }

  /** A digit run `p` followed by dot groups `t` and a stop is consumed exactly. */
  lemma HeadThenGroups(s: string, k: nat, p: string, t: string)
    requires AllDigits(p) && DotGroups(t)
    requires k + |p + t| <= |s| && s[k..k + |p + t|] == p + t && StopsAt(s, k + |p + t|)
    ensures DotGroupsEnd(s, DigitRunEnd(s, k)) == k + |p + t|
  {
    var e := k + |p|;
    SplitSlice(s, k, p, t);
    HeadStops(s, e, t);
    RunEndAt(s, k, e);
    GroupsEnd(s, e, t);
    assert DotGroupsEnd(s, DigitRunEnd(s, k)) == DotGroupsEnd(s, e) == e + |t|;
  }

  /** Where dot groups or the end of the amount follow, no digit does. */
  lemma HeadStops(s: string, e: nat, t: string)
    requires DotGroups(t) && e + |t| <= |s| && s[e..e + |t|] == t && StopsAt(s, e + |t|)
    ensures e == |s| || !IsDigit(s[e])
  {
    if t != [] {
      SliceAt(s, e, t, 0);
    }
  }

  /** A run of digits followed by a non-digit or the end is where the digit run ends. */
  lemma {:induction false} RunEndAt(s: string, k: nat, e: nat)
    requires k <= e <= |s|
    requires forall i :: k <= i < e ==> IsDigit(s[i])
    requires e == |s| || !IsDigit(s[e])
    ensures DigitRunEnd(s, k) == e
    decreases e - k
  {
    if k < e {
      RunEndAt(s, k + 1, e);
    }
  }

  /** The dictionary of amounts spelt out in words. */
  const NUMBER_WORDS: map<string, string> := map[
    "0" := "zéro", "1" := "un", "2" := "deux", "3" := "trois", "4" := "quatre", "5" := "cinq",
    "6" := "six", "7" := "sept", "8" := "huit", "9" := "neuf", "10" := "dix",
    "1000000" := "un million", "2000000" := "deux millions", "3000000" := "trois millions",
    "4000000" := "quatre millions", "5000000" := "cinq millions",
    "1000" := "mille", "2000" := "deux mille", "5000" := "cinq mille",
    "250000" := "deux cent cinquante mille", "2378098" := "deux millions trois cent quatre-vingt-dix-huit mille",
    "5250000" := "cinq millions deux cent cinquante mille"
  ]

  /**
   * `numbers[num] || fallback`: the dictionary phrase when there is a
   * non-empty one, otherwise the locale rendering of the number (given as
   * `localeText`) followed by the grouped figures in parentheses.
   */
  function ConvertNumberToFrench(num: string, localeText: string): (r: string)
    ensures num !in NUMBER_WORDS ==> r == localeText + " (" + GroupThousands(num) + ")"
  {
    if num in NUMBER_WORDS && NUMBER_WORDS[num] != "" then NUMBER_WORDS[num]
    else localeText + " (" + GroupThousands(num) + ")"
  }

  /** Every listed amount has a non-empty phrase, so the dictionary always wins for its keys. */
  lemma DictionaryWins(num: string, localeText: string)
    requires num in NUMBER_WORDS
    ensures ConvertNumberToFrench(num, localeText) == NUMBER_WORDS[num]
  {
    assert forall k | k in NUMBER_WORDS :: NUMBER_WORDS[k] != "";
  }

  lemma FiveThousandInWords(localeText: string)
    ensures ConvertNumberToFrench("5000", localeText) == "cinq mille"
  {
    DictionaryWins("5000", localeText);
  }

  /** An amount outside the dictionary shows its figures, which read back as the amount. */
  lemma FallbackShowsFigures(num: string, localeText: string)
    requires num !in NUMBER_WORDS && AllDigits(num)
    ensures var r := ConvertNumberToFrench(num, localeText);
      r == localeText + " (" + GroupSpec(num, ' ') + ")" && Without(GroupSpec(num, ' '), ' ') == num
  {
    GroupThousandsSpec(num);
  }

  const JOURS: seq<string> := ["dimanche", "lundi", "mardi", "mercredi", "jeudi", "vendredi", "samedi"]
  const MOIS: seq<string> := ["janvier", "février", "mars", "avril", "mai", "juin", "juillet", "août",
                              "septembre", "octobre", "novembre", "décembre"]
  /** The year is spelt out as a fixed phrase, whatever the date. */
  const YEAR_WORDS: string := "deux mil vingt-cinq"

  /** What the date object yields: `getDay()` (0 is Sunday), `getDate()`, `getMonth()` (0 is January). */
  datatype CalendarDay = CalendarDay(weekday: nat, day: nat, month: nat)

  predicate ValidCalendarDay(c: CalendarDay) {
    c.weekday < |JOURS| && c.month < |MOIS|
  }

  /** The date in French words: weekday, day of the month, month, then the fixed year phrase. */
  function FormatDateFrancais(c: CalendarDay): (r: string)
    requires ValidCalendarDay(c)
    ensures |r| > |YEAR_WORDS| && r[|r| - |YEAR_WORDS|..] == YEAR_WORDS
  {
    JOURS[c.weekday] + " " + NatToDecimal(c.day) + " " + MOIS[c.month] + " " + YEAR_WORDS
  }

  /** The text up to the first space. */
  function FirstWord(s: string): (w: string)
    ensures |w| <= |s| && w == s[..|w|] && ' ' !in w
    ensures |w| < |s| ==> s[|w|] == ' '
  {
    if s == [] || s[0] == ' ' then [] else [s[0]] + FirstWord(s[1..])
  }

  /** The text after the first space, or nothing. */
  function AfterWord(s: string): string {
    var w := FirstWord(s);
    if |w| < |s| then s[|w| + 1..] else []
  }

  lemma {:induction false} FirstWordOf(w: string, rest: string)
    requires ' ' !in w
    ensures FirstWord(w + " " + rest) == w && AfterWord(w + " " + rest) == rest
  {
    var s := w + " " + rest;
    if w == [] {
      assert s[0] == ' ';
    } else {
      FirstWordOf(w[1..], rest);
      assert s[1..] == w[1..] + " " + rest;
    }
  }

  /** The position of `x` in `xs`, if it is there. */
  function IndexOf(xs: seq<string>, x: string): (r: Option<nat>)
    ensures r.Some? ==> r.value < |xs| && xs[r.value] == x && forall j :: 0 <= j < r.value ==> xs[j] != x
    ensures r.None? ==> x !in xs
  {
    if xs == [] then None
    else if xs[0] == x then Some(0)
    else match IndexOf(xs[1..], x)
      case None => None
      case Some(i) => Some(i + 1)
  }

  /** Reads a date written by `FormatDateFrancais` back into its parts. */
  function ParseDateFrancais(t: string): Option<CalendarDay> {
    var w1 := FirstWord(t);
    var t1 := AfterWord(t);
    var w2 := FirstWord(t1);
    var t2 := AfterWord(t1);
    var w3 := FirstWord(t2);
    if AllDigits(w2) && AfterWord(t2) == YEAR_WORDS then
      match (IndexOf(JOURS, w1), IndexOf(MOIS, w3))
      case (Some(d), Some(m)) => Some(CalendarDay(d, DecimalValue(w2), m))
      case _ => None
    else None
  }

  predicate Distinct(xs: seq<string>) {
    forall i, j :: 0 <= i < j < |xs| ==> xs[i] != xs[j]
  }

  lemma NamesDistinct()
    ensures Distinct(JOURS) && Distinct(MOIS)
    ensures forall i :: 0 <= i < |JOURS| ==> ' ' !in JOURS[i]
    ensures forall i :: 0 <= i < |MOIS| ==> ' ' !in MOIS[i]
  {
  }

  lemma IndexOfDistinct(xs: seq<string>, i: nat)
    requires Distinct(xs) && i < |xs|
    ensures IndexOf(xs, xs[i]) == Some(i)
  {
    var r := IndexOf(xs, xs[i]);
    assert xs[i] in xs;
  }

  /** A numeral holds no space. */
  lemma NumeralHasNoSpace(n: string)
    requires AllDigits(n)
    ensures ' ' !in n
  {
  }

  /** Three space-free words and the year phrase split back into the words. */
  lemma WordsSplit(j: string, n: string, m: string)
    requires ' ' !in j && ' ' !in n && ' ' !in m
    ensures var t := j + " " + n + " " + m + " " + YEAR_WORDS;
      FirstWord(t) == j && FirstWord(AfterWord(t)) == n && FirstWord(AfterWord(AfterWord(t))) == m
      && AfterWord(AfterWord(AfterWord(t))) == YEAR_WORDS
  {
    var rest2 := m + " " + YEAR_WORDS;
    var rest1 := n + " " + rest2;
    assert j + " " + n + " " + m + " " + YEAR_WORDS == j + " " + rest1;
    FirstWordOf(j, rest1);
    FirstWordOf(n, rest2);
    FirstWordOf(m, YEAR_WORDS);
  }

  /** The written date determines the weekday, the day and the month: it reads back as them. */
  lemma DateRoundTrip(c: CalendarDay)
    requires ValidCalendarDay(c)
    ensures ParseDateFrancais(FormatDateFrancais(c)) == Some(c)
  {
    NamesDistinct();
    var j, n, m := JOURS[c.weekday], NatToDecimal(c.day), MOIS[c.month];
    NumeralHasNoSpace(n);
    WordsSplit(j, n, m);
    IndexOfDistinct(JOURS, c.weekday);
    IndexOfDistinct(MOIS, c.month);
  }

  /** Which of the two templates fills the act. */
  datatype TemplateKind = SommationDePayer | DefaultTemplate

  /** The values the chosen template interpolates; the surrounding fixed text is not modelled. */
  datatype ActTemplate = ActTemplate(
    kind: TemplateKind,
    title: string,
    requerant: string,
    destinataire: string,
    notes: string,
    amountFigures: string,
    amountWords: string,
    date: string,
    time: string)

  /**
   * `templates['Sommation de payer'] || templates['default']`: the payment
   * summons is a non-empty text, so it is chosen for every act type; the
   * act type only reaches the title, upper-cased.
   */
  function GetActTemplate(actType: string, requerant: string, destinataire: string, montantNum: string,
                          montantLettres: string, notes: string, dateComplete: string, time: string): (t: ActTemplate)
    ensures t.kind == SommationDePayer
    ensures t.title == ToUpper(actType) && |t.title| == |actType|
    ensures t.requerant == ToUpper(requerant) && t.destinataire == ToUpper(destinataire)
  {
    ActTemplate(SommationDePayer, ToUpper(actType), ToUpper(requerant), ToUpper(destinataire), notes,
                GroupThousands(montantNum), montantLettres, dateComplete, time)
  }

  /** Two act types give the same act but for the title. */
  lemma TemplateIgnoresActType(a: string, b: string, requerant: string, destinataire: string, montantNum: string,
                               montantLettres: string, notes: string, dateComplete: string, time: string)
    ensures GetActTemplate(a, requerant, destinataire, montantNum, montantLettres, notes, dateComplete, time)
         == GetActTemplate(b, requerant, destinataire, montantNum, montantLettres, notes, dateComplete, time).(title := ToUpper(a))
  {
  }

  /**
   * The drafter: requérant, destinataire, amount and notes are extracted from
   * the facts, the amount is put into words, the date spelt out, and the
   * template filled. Today's date, the time of day and the locale rendering of
   * the amount are inputs. `cls` is the separator class the field patterns
   * use: `AnySpace` as written, `SameLine` as intended.
   */
  function GenerateLegalAct(facts: string, actType: string, cls: SeparatorClass, today: CalendarDay, time: string,
                            localeAmount: string): (t: ActTemplate)
    requires ValidCalendarDay(today)
    ensures t.kind == SommationDePayer && t.title == ToUpper(actType)
    ensures t.requerant == ToUpper(ExtractField(facts, REQUERANT_LABEL, cls, DEFAULT_REQUERANT))
    ensures t.destinataire == ToUpper(ExtractField(facts, DESTINATAIRE_LABEL, cls, DEFAULT_DESTINATAIRE))
    ensures t.notes == Notes(facts, cls) && t.time == time
    ensures Without(t.amountFigures, ' ') == AmountDigits(facts)
    ensures t.amountWords == ConvertNumberToFrench(AmountDigits(facts), localeAmount)
    ensures |t.requerant| > 0 && |t.destinataire| > 0
    ensures ParseDateFrancais(t.date) == Some(today)
  {
    var requerant := ExtractField(facts, REQUERANT_LABEL, cls, DEFAULT_REQUERANT);
    var destinataire := ExtractField(facts, DESTINATAIRE_LABEL, cls, DEFAULT_DESTINATAIRE);
    var montantNum := AmountDigits(facts);
    var notes := Notes(facts, cls);
    var montantLettres := ConvertNumberToFrench(montantNum, localeAmount);
    var dateComplete := FormatDateFrancais(today);
    GroupThousandsSpec(montantNum);
    DateRoundTrip(today);
    GetActTemplate(actType, requerant, destinataire, montantNum, montantLettres, notes, dateComplete, time)
  }
}
