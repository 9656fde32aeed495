/**
 * The application shell: the act-type search, the icon chosen for each act
 * type, the prompt built from the written form, the record a generation
 * creates, the backup bundle and its import, and the session whose handlers
 * log in, generate, save, import and reset the new-act flow.
 */
module App {
  import opened Wrappers
  import opened Text
  import opened Types
  import Editor
  import Dashboard
  import opened StorageService
  import opened GeminiService

  // ---------------------------------------------------------------------
  // Act-type search
  // ---------------------------------------------------------------------

  /** `task.toLowerCase().includes(term.toLowerCase())`. */
  predicate MatchesSearch(task: string, term: string) {
    Contains(ToLower(task), ToLower(term))
  }

  /** `tasks.filter(...)`: the entries that match the search term. */
  function FilterTasks(tasks: seq<string>, term: string): (r: seq<string>)
    ensures |r| <= |tasks|
    ensures forall t :: t in r <==> t in tasks && MatchesSearch(t, term)
  {
    if tasks == [] then []
    else if MatchesSearch(tasks[0], term) then [tasks[0]] + FilterTasks(tasks[1..], term)
    else FilterTasks(tasks[1..], term)
  }

  /**
   * The filter works entry by entry and keeps the original order: filtering a
   * concatenation is the concatenation of the filtered parts.
   */
  lemma {:induction false} FilterConcat(a: seq<string>, b: seq<string>, term: string)
    ensures FilterTasks(a + b, term) == FilterTasks(a, term) + FilterTasks(b, term)
  {
    if a != [] {
      assert (a + b)[0] == a[0] && (a + b)[1..] == a[1..] + b;
      FilterConcat(a[1..], b, term);
    } else {
      assert a + b == b;
    }
  }

  /** A single entry is kept exactly when it matches. */
  lemma FilterSingle(t: string, term: string)
    ensures FilterTasks([t], term) == if MatchesSearch(t, term) then [t] else []
  {
    assert [t][1..] == [];
  }

  /** An empty search term keeps every entry. */
  lemma {:induction false} EmptyTermKeepsAll(tasks: seq<string>)
    ensures FilterTasks(tasks, "") == tasks
  {
    if tasks != [] {
      ContainsEmpty(ToLower(tasks[0]));
      EmptyTermKeepsAll(tasks[1..]);
    }
  }

  /** The act types offered for the current search term. */
  function FilteredTasks(term: string): (r: seq<string>)
    ensures forall t :: t in r <==> t in ACT_TYPES && MatchesSearch(t, term)
  {
    FilterTasks(ACT_TYPES, term)
  }

  /** With an empty search box all sixteen act types are offered, in order. */
  lemma EmptySearchOffersAll()
    ensures FilteredTasks("") == ACT_TYPES && |FilteredTasks("")| == 16
  {
    EmptyTermKeepsAll(ACT_TYPES);
  }

  // ---------------------------------------------------------------------
  // Act-type icons
  // ---------------------------------------------------------------------

  const FALLBACK_ICON: string := "fa-file-alt"

  /** The keyword tests of the icon chooser, in the order they are tried. */
  const ICON_RULES: seq<(string, string)> := [
    ("Assignation", "fa-gavel"),
    ("Commandement", "fa-exclamation-triangle"),
    ("Constat", "fa-eye"),
    ("Saisie", "fa-lock"),
    ("Expulsion", "fa-door-open"),
    ("Signification", "fa-envelope-open-text"),
    ("Sommation", "fa-bullhorn")
  ]

  /** The icon of the first rule whose keyword occurs in the task (case-sensitive), else the fallback. */
  function FirstRuleIcon(rules: seq<(string, string)>, task: string): string {
    if rules == [] then FALLBACK_ICON
    else if Contains(task, rules[0].0) then rules[0].1
    else FirstRuleIcon(rules[1..], task)
  }

  /** The table's entries one by one; no rule yields the fallback icon. */
  lemma RuleTable()
    ensures |ICON_RULES| == 7
    ensures ICON_RULES[0] == ("Assignation", "fa-gavel") && ICON_RULES[1] == ("Commandement", "fa-exclamation-triangle")
    ensures ICON_RULES[2] == ("Constat", "fa-eye") && ICON_RULES[3] == ("Saisie", "fa-lock")
    ensures ICON_RULES[4] == ("Expulsion", "fa-door-open") && ICON_RULES[5] == ("Signification", "fa-envelope-open-text")
    ensures ICON_RULES[6] == ("Sommation", "fa-bullhorn")
    ensures forall k :: 0 <= k < |ICON_RULES| ==> ICON_RULES[k].1 != FALLBACK_ICON
  {
    assert ICON_RULES[6].1[3] != FALLBACK_ICON[3];
  }

  /** The icon shown beside an act type. */
  function GetTaskIcon(task: string): (icon: string)
    ensures icon == FALLBACK_ICON <==> forall k :: 0 <= k < |ICON_RULES| ==> !Contains(task, ICON_RULES[k].0)
  {
    RuleTable();
    if Contains(task, "Assignation") then "fa-gavel"
    else if Contains(task, "Commandement") then "fa-exclamation-triangle"
    else if Contains(task, "Constat") then "fa-eye"
    else if Contains(task, "Saisie") then "fa-lock"
    else if Contains(task, "Expulsion") then "fa-door-open"
    else if Contains(task, "Signification") then "fa-envelope-open-text"
    else if Contains(task, "Sommation") then "fa-bullhorn"
    else FALLBACK_ICON
  }

  /** The chooser is the first-match rule over the keyword table. */
  lemma IconIsFirstMatchingRule(task: string)
    ensures GetTaskIcon(task) == FirstRuleIcon(ICON_RULES, task)
  {
    RuleTable();
    assert ICON_RULES[0..] == ICON_RULES && ICON_RULES[7..] == [];
    FirstRuleStep(ICON_RULES, 0, task);
    FirstRuleStep(ICON_RULES, 1, task);
    FirstRuleStep(ICON_RULES, 2, task);
    FirstRuleStep(ICON_RULES, 3, task);
    FirstRuleStep(ICON_RULES, 4, task);
    FirstRuleStep(ICON_RULES, 5, task);
    FirstRuleStep(ICON_RULES, 6, task);
  }

  /** One step of the first-match rule: the rule at `i` either fires or hands over to the rest. */
  lemma FirstRuleStep(rules: seq<(string, string)>, i: nat, task: string)
    requires i < |rules|
    ensures FirstRuleIcon(rules[i..], task)
            == if Contains(task, rules[i].0) then rules[i].1 else FirstRuleIcon(rules[i + 1..], task)
  {
    assert rules[i..][0] == rules[i] && rules[i..][1..] == rules[i + 1..];
  }

  /**
   * The tests are case-sensitive: two act types whose keyword is written in
   * lower case get the fallback icon.
   */
  lemma LowerCaseKeywordsGetFallback()
    ensures GetTaskIcon("Procédure d'expulsion") == FALLBACK_ICON
    ensures GetTaskIcon("Dénonciation de saisie") == FALLBACK_ICON
  {
    forall k | 0 <= k < |ICON_RULES|
      ensures !Contains("Procédure d'expulsion", ICON_RULES[k].0) && !Contains("Dénonciation de saisie", ICON_RULES[k].0)
    {
      NotContainsFirst("Procédure d'expulsion", ICON_RULES[k].0);
      NotContainsFirst("Dénonciation de saisie", ICON_RULES[k].0);
    }
  }

  // ---------------------------------------------------------------------
  // The prompt handed to the generator
  // ---------------------------------------------------------------------

  datatype InputMethod = AudioInput | WrittenInput

  const REQUERANT_PREFIX: string := REQUERANT_LABEL + ": "
  const DESTINATAIRE_PREFIX: string := "\n" + DESTINATAIRE_LABEL + ": "
  const NOTES_PREFIX: string := "\nNOTES DE TERRAIN: "

  /** The three fields of the written form, one labelled line each. */
  function WrittenPrompt(requerant: string, destinataire: string, content: string): string {
    REQUERANT_PREFIX + requerant + DESTINATAIRE_PREFIX + destinataire + NOTES_PREFIX + content
  }

  /** The written form is labelled; dictated content goes through as it is. */
  function ComposePrompt(inputMethod: Option<InputMethod>, requerant: string, destinataire: string, content: string): (p: string)
    ensures inputMethod != Some(WrittenInput) ==> p == content
    ensures inputMethod == Some(WrittenInput) ==> |p| == 45 + |requerant| + |destinataire| + |content|
  {
    if inputMethod == Some(WrittenInput) then WrittenPrompt(requerant, destinataire, content) else content
  }

  /** A form field that reads back as itself: one line, not starting with a separator. */
  predicate PlainField(v: string) {
    && v != [] && !IsSeparator(AnySpace, v[0])
    && forall i :: 0 <= i < |v| ==> !IsLineTerminator(v[i])
  }

  predicate OneLine(v: string) {
    forall i :: 0 <= i < |v| ==> !IsLineTerminator(v[i])
  }

  /** Where each part of the written prompt sits. */
  lemma PromptLayout(r: string, d: string, c: string)
    ensures var s := WrittenPrompt(r, d, c);
      && |s| == 45 + |r| + |d| + |c|
      && s[..9] == REQUERANT_LABEL && s[9] == ':' && s[10] == ' '
      && s[11..11 + |r|] == r && s[11 + |r|] == '\n'
      && s[12 + |r|..24 + |r|] == DESTINATAIRE_LABEL
      && s[12 + |r|..26 + |r| + |d|] == DESTINATAIRE_LABEL + ": " + d
      && s[24 + |r|] == ':' && s[25 + |r|] == ' '
      && s[26 + |r|..26 + |r| + |d|] == d && s[26 + |r| + |d|] == '\n'
  {
    var s := WrittenPrompt(r, d, c);
    var a := REQUERANT_PREFIX + r;
    var b := a + DESTINATAIRE_PREFIX + d;
    assert s == b + NOTES_PREFIX + c;
    assert |a| == 11 + |r| && |b| == 26 + |r| + |d|;
    assert s[..|b|] == b && s[|b|] == '\n';
    assert b[..11] == REQUERANT_PREFIX && b[11..|a|] == r;
    assert b[|a|..] == DESTINATAIRE_PREFIX + d;
    assert b[|a| + 1..] == DESTINATAIRE_LABEL + ": " + d;
    assert (DESTINATAIRE_LABEL + ": " + d)[..12] == DESTINATAIRE_LABEL;
    assert (DESTINATAIRE_LABEL + ": " + d)[14..] == d;
  }

  /** A tag written out at `p` is found there. */
  lemma LabelFromSlice(s: string, tag: string, p: nat)
    requires p + |tag| <= |s| && s[p..p + |tag|] == tag
    ensures LabelAt(s, tag, p)
  {
    forall j | 0 <= j < |tag|
      ensures s[p + j] == tag[j]
    {
      assert s[p..p + |tag|][j] == s[p + j];
    }
  }

  /** A tag inside an embedded copy of `v` is found in `s` exactly when it is found in `v`. */
  lemma LabelShift(s: string, v: string, off: nat, tag: string, p: nat)
    requires off + |v| <= |s| && s[off..off + |v|] == v && p + |tag| <= |v|
    ensures LabelAt(s, tag, off + p) <==> LabelAt(v, tag, p)
  {
    forall i | p <= i < p + |tag|
      ensures s[off + i] == v[i]
    {
      assert s[off..off + |v|][i] == s[off + i];
    }
  }

  predicate Capitals(tag: string) {
    forall j :: 0 <= j < |tag| ==> 'A' <= tag[j] <= 'Z'
  }

  /** A tag of capital letters cannot be found over a position holding no letter. */
  lemma Blocked(s: string, tag: string, p: nat, x: nat)
    requires Capitals(tag) && p <= x < p + |tag| && x < |s|
    requires s[x] == ':' || s[x] == ' ' || s[x] == '\n'
    ensures !LabelAt(s, tag, p)
  {
    assert UpperChar(s[p + (x - p)]) != UpperChar(tag[x - p]);
  }

  lemma {:induction false} SeparatorsEndIs(s: string, cls: SeparatorClass, q: nat, e: nat)
    requires q <= e < |s| && !IsSeparator(cls, s[e])
    requires forall i :: q <= i < e ==> IsSeparator(cls, s[i])
    ensures SeparatorsEnd(s, cls, q) == e
    decreases e - q
  {
    if q < e {
      SeparatorsEndIs(s, cls, q + 1, e);
    }
  }

  lemma {:induction false} LineEndIs(s: string, k: nat, e: nat)
    requires k <= e < |s| && IsLineTerminator(s[e])
    requires forall i :: k <= i < e ==> !IsLineTerminator(s[i])
    ensures LineEnd(s, k) == e
    decreases e - k
  {
    if k < e {
      LineEndIs(s, k + 1, e);
    }
  }

  /**
   * The tag at `p`, separators up to `vs`, a one-line value up to the `\n`
   * at `ve`: the match at `p` captures exactly `[vs, ve)`.
   */
  lemma FieldAt(s: string, tag: string, cls: SeparatorClass, p: nat, vs: nat, ve: nat)
    requires LabelAt(s, tag, p) && p + |tag| <= vs < ve < |s|
    requires forall i :: p + |tag| <= i < vs ==> IsSeparator(cls, s[i])
    requires !IsSeparator(cls, s[vs])
    requires forall i :: vs <= i < ve ==> !IsLineTerminator(s[i])
    requires s[ve] == '\n'
    ensures MatchAt(s, tag, cls, p) == Some(FieldMatch(p, vs, ve))
  {
    SeparatorsEndIs(s, cls, p + |tag|, vs);
    LineEndIs(s, vs, ve);
    assert ValueAt(s, vs);
  }

  /** A match at `p` with no occurrence of the tag before it is the first match. */
  lemma FirstMatchIs(s: string, tag: string, cls: SeparatorClass, p: nat, m: FieldMatch)
    requires p <= |s| && MatchAt(s, tag, cls, p) == Some(m)
    requires forall q :: 0 <= q < p ==> !LabelAt(s, tag, q)
    ensures FindMatch(s, tag, cls, 0) == Some(m)
  {
    LeftmostIs(s, tag, cls, p, m, FindMatch(s, tag, cls, 0));
  }

  /** Any leftmost match, given by its defining properties, is the one at `p`. */
  lemma LeftmostIs(s: string, tag: string, cls: SeparatorClass, p: nat, m: FieldMatch, f: Option<FieldMatch>)
    requires p <= |s| && MatchAt(s, tag, cls, p) == Some(m)
    requires forall q :: 0 <= q < p ==> !LabelAt(s, tag, q)
    requires f.Some? ==> (f.value.start <= |s| && MatchAt(s, tag, cls, f.value.start) == f
      && NoMatchBetween(s, tag, cls, 0, f.value.start))
    requires f.None? ==> NoMatchBetween(s, tag, cls, 0, |s| + 1)
    ensures f == Some(m)
  {
    assert MatchAt(s, tag, cls, p).Some?;
    assert f.Some?;
    var st := f.value.start;
    assert LabelAt(s, tag, st);
    assert p <= st <= p;
  }

  /** The requérant line of the written prompt: the tag, `": "`, the value and a line break. */
  lemma RequerantLine(r: string, d: string, c: string)
    ensures var s := WrittenPrompt(r, d, c);
      && 11 + |r| < |s| && s[0..9] == REQUERANT_LABEL && s[9] == ':' && s[10] == ' '
      && s[11..11 + |r|] == r && s[11 + |r|] == '\n'
  {
    PromptLayout(r, d, c);
    var s := WrittenPrompt(r, d, c);
    assert s[0..9] == s[..9];
  }

  /** The destinataire line of the written prompt: the tag, `": "`, the value and a line break. */
  lemma DestinataireLine(r: string, d: string, c: string)
    ensures var s, p := WrittenPrompt(r, d, c), 12 + |r|;
      && p + 14 + |d| < |s| && s[p..p + 12] == DESTINATAIRE_LABEL && s[p + 12] == ':' && s[p + 13] == ' '
      && s[p + 14..p + 14 + |d|] == d && s[p + 14 + |d|] == '\n'
  {
    PromptLayout(r, d, c);
  }

  /** A line holding the tag, `": "` and a plain value is matched there and captures the value. */
  lemma TaggedLine(s: string, tag: string, cls: SeparatorClass, p: nat, v: string)
    requires PlainField(v) && p + |tag| + 2 + |v| < |s|
    requires s[p..p + |tag|] == tag && s[p + |tag|] == ':' && s[p + |tag| + 1] == ' '
    requires s[p + |tag| + 2..p + |tag| + 2 + |v|] == v && s[p + |tag| + 2 + |v|] == '\n'
    ensures MatchAt(s, tag, cls, p) == Some(FieldMatch(p, p + |tag| + 2, p + |tag| + 2 + |v|))
  {
    var vs := p + |tag| + 2;
    var ve := vs + |v|;
    LabelFromSlice(s, tag, p);
    forall i | vs <= i < ve
      ensures s[i] == v[i - vs]
    {
      assert s[vs..ve][i - vs] == s[i];
    }
    FieldAt(s, tag, cls, p, vs, ve);
  }

  /**
   * The requérant typed in the written form is what the generator reads
   * back, trimmed, whichever separator class the pattern uses.
   */
  lemma RequerantRoundTrip(r: string, d: string, c: string, cls: SeparatorClass)
    requires PlainField(r)
    ensures ExtractField(WrittenPrompt(r, d, c), REQUERANT_LABEL, cls, DEFAULT_REQUERANT) == Trim(r)
  {
    var s := WrittenPrompt(r, d, c);
    var m := FieldMatch(0, 11, 11 + |r|);
    RequerantLine(r, d, c);
    TaggedLine(s, REQUERANT_LABEL, cls, 0, r);
    FirstMatchIs(s, REQUERANT_LABEL, cls, 0, m);
    TrimKeepsFirst(r);
  }

  /** The destinataire line of the written prompt matches at its tag and captures the typed value. */
  lemma DestinataireMatch(r: string, d: string, c: string, cls: SeparatorClass)
    requires PlainField(d)
    ensures var p := 12 + |r|;
      MatchAt(WrittenPrompt(r, d, c), DESTINATAIRE_LABEL, cls, p) == Some(FieldMatch(p, p + 14, p + 14 + |d|))
  {
    DestinataireLine(r, d, c);
    TaggedLine(WrittenPrompt(r, d, c), DESTINATAIRE_LABEL, cls, 12 + |r|, d);
  }

  /** Before the destinataire line the tag cannot be found, unless the requérant contains it. */
  lemma NoDestinataireBefore(r: string, d: string, c: string)
    requires OneLine(r) && !HasLabel(r, DESTINATAIRE_LABEL)
    ensures forall q :: 0 <= q < 12 + |r| ==> !LabelAt(WrittenPrompt(r, d, c), DESTINATAIRE_LABEL, q)
  {
    var s := WrittenPrompt(r, d, c);
    RequerantLine(r, d, c);
    assert Capitals(DESTINATAIRE_LABEL);
    forall q | 0 <= q < 12 + |r|
      ensures !LabelAt(s, DESTINATAIRE_LABEL, q)
    {
      if q <= 9 {
        Blocked(s, DESTINATAIRE_LABEL, q, 9);
      } else if q == 10 {
        Blocked(s, DESTINATAIRE_LABEL, q, 10);
      } else if q + 12 <= 11 + |r| {
        LabelShift(s, r, 11, DESTINATAIRE_LABEL, q - 11);
        assert !LabelAt(r, DESTINATAIRE_LABEL, q - 11);
      } else {
        Blocked(s, DESTINATAIRE_LABEL, q, 11 + |r|);
      }
    }
  }

  /**
   * The destinataire typed in the written form is read back, trimmed, as
   * long as the requérant line does not itself contain the tag.
   */
  lemma DestinataireRoundTrip(r: string, d: string, c: string, cls: SeparatorClass)
    requires OneLine(r) && !HasLabel(r, DESTINATAIRE_LABEL) && PlainField(d)
    ensures ExtractField(WrittenPrompt(r, d, c), DESTINATAIRE_LABEL, cls, DEFAULT_DESTINATAIRE) == Trim(d)
  {
    var s := WrittenPrompt(r, d, c);
    var p := 12 + |r|;
    var m := FieldMatch(p, p + 14, p + 14 + |d|);
    DestinataireMatch(r, d, c, cls);
    NoDestinataireBefore(r, d, c);
    FirstMatchIs(s, DESTINATAIRE_LABEL, cls, p, m);
    DestinataireLine(r, d, c);
    assert s[m.valueStart..m.valueEnd] == d;
    TrimKeepsFirst(d);
    assert ExtractField(s, DESTINATAIRE_LABEL, cls, DEFAULT_DESTINATAIRE) == Trim(d);
  }

  /**
   * The pattern as written lets its separator run cross the line break: a
   * requérant made only of blanks (the form refuses only the empty string)
   * makes the generator take the whole destinataire line as the requérant.
   */
  lemma BlankRequerantTakesNextLine(r: string, d: string, c: string)
    requires forall i :: 0 <= i < |r| ==> IsJsSpace(r[i]) && !IsLineTerminator(r[i])
    requires OneLine(d)
    ensures var got := ExtractField(WrittenPrompt(r, d, c), REQUERANT_LABEL, AnySpace, DEFAULT_REQUERANT);
      got == Trim(DESTINATAIRE_LABEL + ": " + d) && got != DEFAULT_REQUERANT
      && |got| >= 12 && got[..12] == DESTINATAIRE_LABEL
  {
    var s := WrittenPrompt(r, d, c);
    var m := FieldMatch(0, 12 + |r|, 26 + |r| + |d|);
    BlankRequerantMatch(r, d, c);
    FirstMatchIs(s, REQUERANT_LABEL, AnySpace, 0, m);
    PromptLayout(r, d, c);
    assert s[m.valueStart..m.valueEnd] == DESTINATAIRE_LABEL + ": " + d;
    TaggedLineTrim(d);
  }

  /** Under the class as written, the match at the start runs over the blank value and the line break. */
  lemma BlankRequerantMatch(r: string, d: string, c: string)
    requires forall i :: 0 <= i < |r| ==> IsJsSpace(r[i]) && !IsLineTerminator(r[i])
    requires OneLine(d)
    ensures MatchAt(WrittenPrompt(r, d, c), REQUERANT_LABEL, AnySpace, 0) == Some(FieldMatch(0, 12 + |r|, 26 + |r| + |d|))
  {
    var v := DESTINATAIRE_LABEL + ": " + d;
    RequerantLine(r, d, c);
    NextLine(r, d, c);
    assert v[0] == 'D';
    assert OneLine(v);
    CrossingField(WrittenPrompt(r, d, c), REQUERANT_LABEL, r, v);
  }

  /** After the requérant line comes the whole destinataire line, then a line break. */
  lemma NextLine(r: string, d: string, c: string)
    ensures var s := WrittenPrompt(r, d, c);
      26 + |r| + |d| < |s| && s[12 + |r|..26 + |r| + |d|] == DESTINATAIRE_LABEL + ": " + d && s[26 + |r| + |d|] == '\n'
  {
    PromptLayout(r, d, c);
  }

  /**
   * The tag at the start, `": "`, a blank value `r`, a line break and a
   * one-line `v`: with line breaks counted as separators, the value
   * captured is `v`.
   */
  lemma CrossingField(s: string, tag: string, r: string, v: string)
    requires forall i :: 0 <= i < |r| ==> IsJsSpace(r[i]) && !IsLineTerminator(r[i])
    requires v != [] && !IsSeparator(AnySpace, v[0]) && OneLine(v)
    requires |tag| + 3 + |r| + |v| < |s|
    requires s[0..|tag|] == tag && s[|tag|] == ':' && s[|tag| + 1] == ' '
    requires s[|tag| + 2..|tag| + 2 + |r|] == r && s[|tag| + 2 + |r|] == '\n'
    requires s[|tag| + 3 + |r|..|tag| + 3 + |r| + |v|] == v && s[|tag| + 3 + |r| + |v|] == '\n'
    ensures MatchAt(s, tag, AnySpace, 0) == Some(FieldMatch(0, |tag| + 3 + |r|, |tag| + 3 + |r| + |v|))
  {
    var rs := |tag| + 2;
    var vs := rs + |r| + 1;
    var ve := vs + |v|;
    LabelFromSlice(s, tag, 0);
    forall i | rs <= i < rs + |r|
      ensures s[i] == r[i - rs]
    {
      assert s[rs..rs + |r|][i - rs] == s[i];
    }
    forall i | vs <= i < ve
      ensures s[i] == v[i - vs]
    {
      assert s[vs..ve][i - vs] == s[i];
    }
    FieldAt(s, tag, AnySpace, 0, vs, ve);
  }

  /** A line that starts with the destinataire tag keeps the tag when trimmed. */
  lemma TaggedLineTrim(d: string)
    ensures var t := Trim(DESTINATAIRE_LABEL + ": " + d);
      t != DEFAULT_REQUERANT && |t| >= 12 && t[..12] == DESTINATAIRE_LABEL
  {
    var v := DESTINATAIRE_LABEL + ": " + d;
    assert !IsJsSpace(v[0]) && !IsJsSpace(v[11]);
    assert TrimStart(v) == v;
    assert |TrimEnd(v)| >= 12;
    assert Trim(v)[..12] == v[..12] == DESTINATAIRE_LABEL;
    assert Trim(v)[0] != DEFAULT_REQUERANT[0];
  }

  /**
   * With a separator class that stops at the line break, the same blank
   * requérant leaves the field at its default.
   */
  lemma BlankRequerantFallsBack(r: string, d: string, c: string)
    requires forall i :: 0 <= i < |r| ==> IsJsSpace(r[i]) && !IsLineTerminator(r[i])
    ensures ExtractField(WrittenPrompt(r, d, c), REQUERANT_LABEL, SameLine, DEFAULT_REQUERANT) == DEFAULT_REQUERANT
  {
    var s := WrittenPrompt(r, d, c);
    var k := 11 + |r|;
    PromptLayout(r, d, c);
    LabelFromSlice(s, REQUERANT_LABEL, 0);
    forall i | 11 <= i < k
      ensures s[i] == r[i - 11]
    {
      assert s[11..11 + |r|][i - 11] == s[i];
    }
    SeparatorsEndIs(s, SameLine, 9, k);
    LineEndIs(s, k, k);
    LineEndIs(s, k - 1, k);
    assert !ValueAt(s, k) && ValueAt(s, k - 1);
    assert Backtrack(s, 9, k) == Some(k - 1);
    assert MatchAt(s, REQUERANT_LABEL, SameLine, 0) == Some(FieldMatch(0, k - 1, k));
    FirstMatchIs(s, REQUERANT_LABEL, SameLine, 0, FieldMatch(0, k - 1, k));
    assert s[k - 1..k] == [s[k - 1]];
    TrimAllSpace(s[k - 1..k]);
  }

  /** The tag, in either case, has no letter `ch`: no occurrence of the tag can cover it. */
  predicate BlocksTag(tag: string, ch: char) {
    forall j :: 0 <= j < |tag| ==> UpperChar(ch) != UpperChar(tag[j])
  }

  /** Two texts without the tag, joined at a character the tag cannot cover, give a text without it. */
  lemma NoLabelJoin(a: string, b: string, tag: string)
    requires !HasLabel(a, tag) && !HasLabel(b, tag)
    requires (a != [] && BlocksTag(tag, a[|a| - 1])) || (b != [] && BlocksTag(tag, b[0]))
    ensures !HasLabel(a + b, tag)
  {
    var s := a + b;
    assert s[0..|a|] == a && s[|a|..|a| + |b|] == b;
    forall p: nat | p <= |s|
      ensures !LabelAt(s, tag, p)
    {
      if p + |tag| <= |s| {
        if p + |tag| <= |a| {
          LabelShift(s, a, 0, tag, p);
        } else if p >= |a| {
          LabelShift(s, b, |a|, tag, p - |a|);
        } else {
          var x := if a != [] && BlocksTag(tag, a[|a| - 1]) then |a| - 1 else |a|;
          assert UpperChar(s[p + (x - p)]) != UpperChar(tag[x - p]);
        }
      }
    }
  }

  /** The fixed text around the destinataire and notes fields carries neither tag. */
  lemma PromptTextsUntagged()
    ensures !HasLabel(DESTINATAIRE_PREFIX, REQUERANT_LABEL)
    ensures !HasLabel(NOTES_PREFIX, REQUERANT_LABEL) && !HasLabel(NOTES_PREFIX, DESTINATAIRE_LABEL)
  {
    forall p: nat | p <= |DESTINATAIRE_PREFIX|
      ensures !LabelAt(DESTINATAIRE_PREFIX, REQUERANT_LABEL, p)
    {
      if p + 9 <= |DESTINATAIRE_PREFIX| {
        assert UpperChar(DESTINATAIRE_PREFIX[p]) != UpperChar(REQUERANT_LABEL[0]);
      }
    }
    forall p: nat | p <= |NOTES_PREFIX|
      ensures !LabelAt(NOTES_PREFIX, REQUERANT_LABEL, p) && !LabelAt(NOTES_PREFIX, DESTINATAIRE_LABEL, p)
    {
      if p + 9 <= |NOTES_PREFIX| {
        assert UpperChar(NOTES_PREFIX[p]) != UpperChar(REQUERANT_LABEL[0]);
      }
      if p + 12 <= |NOTES_PREFIX| {
        assert UpperChar(NOTES_PREFIX[p]) != UpperChar(DESTINATAIRE_LABEL[0])
            || UpperChar(NOTES_PREFIX[p + 2]) != UpperChar(DESTINATAIRE_LABEL[2]);
      }
    }
  }

  /** From `from` on the tag never occurs: the global replace leaves that part as it is. */
  lemma RemoveNoneFrom(s: string, tag: string, cls: SeparatorClass, from: nat)
    requires from <= |s| && !HasLabel(s[from..], tag)
    ensures RemoveFrom(s, tag, cls, from) == s[from..]
  {
    forall p | from <= p <= |s|
      ensures !LabelAt(s, tag, p)
    {
      if p + |tag| <= |s| {
        LabelShift(s, s[from..], from, tag, p - from);
      }
    }
    FoundAtLabel(s, tag, cls, from);
  }

  /** A match found from `from` on starts at an occurrence of the tag there. */
  lemma FoundAtLabel(s: string, tag: string, cls: SeparatorClass, from: nat)
    requires from <= |s|
    ensures FindMatch(s, tag, cls, from).Some? ==>
      var q := FindMatch(s, tag, cls, from).value.start; from <= q <= |s| && LabelAt(s, tag, q)
  {
  }

  /** The global replace cuts the first match out and carries on after it. */
  lemma RemoveFirst(s: string, tag: string, cls: SeparatorClass, m: FieldMatch)
    requires FindMatch(s, tag, cls, 0) == Some(m)
    ensures m.start <= m.valueEnd <= |s|
    ensures RemoveFrom(s, tag, cls, 0) == s[..m.start] + RemoveFrom(s, tag, cls, m.valueEnd)
  {
    MatchAtIsMatch(s, tag, cls, m.start);
  }

  /** What follows the requérant value in the written prompt. */
  function AfterRequerant(d: string, c: string): string {
    DESTINATAIRE_PREFIX + d + NOTES_PREFIX + c
  }

  lemma AfterRequerantSplit(r: string, d: string, c: string)
    ensures |WrittenPrompt(r, d, c)| >= 11 + |r| && WrittenPrompt(r, d, c)[11 + |r|..] == AfterRequerant(d, c)
  {
    assert WrittenPrompt(r, d, c) == (REQUERANT_PREFIX + r) + AfterRequerant(d, c);
  }

  /** The requérant tag occurs after the requérant value only if the destinataire or the notes hold it. */
  lemma AfterRequerantUntagged(d: string, c: string)
    requires !HasLabel(d, REQUERANT_LABEL) && !HasLabel(c, REQUERANT_LABEL)
    ensures !HasLabel(AfterRequerant(d, c), REQUERANT_LABEL)
  {
    PromptTextsUntagged();
    NoLabelJoin(DESTINATAIRE_PREFIX, d, REQUERANT_LABEL);
    NoLabelJoin(DESTINATAIRE_PREFIX + d, NOTES_PREFIX, REQUERANT_LABEL);
    var a := DESTINATAIRE_PREFIX + d + NOTES_PREFIX;
    assert a[|a| - 1] == ' ';
    NoLabelJoin(a, c, REQUERANT_LABEL);
  }

  /** The first requérant match of the written prompt is its first line. */
  lemma RequerantFound(r: string, d: string, c: string, cls: SeparatorClass)
    requires PlainField(r)
    ensures FindMatch(WrittenPrompt(r, d, c), REQUERANT_LABEL, cls, 0) == Some(FieldMatch(0, 11, 11 + |r|))
  {
    RequerantLine(r, d, c);
    TaggedLine(WrittenPrompt(r, d, c), REQUERANT_LABEL, cls, 0, r);
    FirstMatchIs(WrittenPrompt(r, d, c), REQUERANT_LABEL, cls, 0, FieldMatch(0, 11, 11 + |r|));
  }

  /** Cutting the requérant out of the written prompt leaves the rest from its line break on. */
  lemma RequerantCut(r: string, d: string, c: string, cls: SeparatorClass)
    requires PlainField(r) && !HasLabel(d, REQUERANT_LABEL) && !HasLabel(c, REQUERANT_LABEL)
    ensures RemoveFrom(WrittenPrompt(r, d, c), REQUERANT_LABEL, cls, 0) == AfterRequerant(d, c)
  {
    var s := WrittenPrompt(r, d, c);
    RequerantFound(r, d, c, cls);
    RemoveFirst(s, REQUERANT_LABEL, cls, FieldMatch(0, 11, 11 + |r|));
    AfterRequerantSplit(r, d, c);
    AfterRequerantUntagged(d, c);
    RemoveNoneFrom(s, REQUERANT_LABEL, cls, 11 + |r|);
  }

  /** The destinataire line opens what follows the requérant value, after its line break. */
  lemma AfterRequerantLayout(d: string, c: string)
    ensures var t := AfterRequerant(d, c);
      && 15 + |d| < |t| && t[0] == '\n' && t[1..13] == DESTINATAIRE_LABEL && t[13] == ':' && t[14] == ' '
      && t[15..15 + |d|] == d && t[15 + |d|] == '\n' && t[15 + |d|..] == NOTES_PREFIX + c
  {
    var t := AfterRequerant(d, c);
    assert t == DESTINATAIRE_PREFIX + d + (NOTES_PREFIX + c);
  }

  /** The first destinataire match after the requérant value is the destinataire line. */
  lemma DestinataireFound(d: string, c: string, cls: SeparatorClass)
    requires PlainField(d)
    ensures FindMatch(AfterRequerant(d, c), DESTINATAIRE_LABEL, cls, 0) == Some(FieldMatch(1, 15, 15 + |d|))
  {
    var t := AfterRequerant(d, c);
    AfterRequerantLayout(d, c);
    TaggedLine(t, DESTINATAIRE_LABEL, cls, 1, d);
    assert UpperChar(t[0]) != UpperChar(DESTINATAIRE_LABEL[0]);
    FirstMatchIs(t, DESTINATAIRE_LABEL, cls, 1, FieldMatch(1, 15, 15 + |d|));
  }

  /** Cutting the destinataire out of what follows the requérant leaves the notes line after a line break. */
  lemma DestinataireCut(d: string, c: string, cls: SeparatorClass)
    requires PlainField(d) && !HasLabel(c, DESTINATAIRE_LABEL)
    ensures RemoveFrom(AfterRequerant(d, c), DESTINATAIRE_LABEL, cls, 0) == "\n" + NOTES_PREFIX + c
  {
    var t := AfterRequerant(d, c);
    DestinataireFound(d, c, cls);
    RemoveFirst(t, DESTINATAIRE_LABEL, cls, FieldMatch(1, 15, 15 + |d|));
    AfterDestinataire(d, c);
    NotesLineUntagged(c);
    RemoveNoneFrom(t, DESTINATAIRE_LABEL, cls, 15 + |d|);
  }

  /** What is left around the destinataire line: its leading line break, and the notes line after it. */
  lemma AfterDestinataire(d: string, c: string)
    ensures var t := AfterRequerant(d, c);
      15 + |d| <= |t| && t[..1] == "\n" && t[15 + |d|..] == NOTES_PREFIX + c
  {
    assert AfterRequerant(d, c) == DESTINATAIRE_PREFIX + d + (NOTES_PREFIX + c);
  }

  /** The notes line holds the destinataire tag only if the notes do. */
  lemma NotesLineUntagged(c: string)
    requires !HasLabel(c, DESTINATAIRE_LABEL)
    ensures !HasLabel(NOTES_PREFIX + c, DESTINATAIRE_LABEL)
  {
    PromptTextsUntagged();
    NoLabelJoin(NOTES_PREFIX, c, DESTINATAIRE_LABEL);
  }

  /** The two leading line breaks go when the notes are trimmed. */
  lemma NotesLineTrim(c: string)
    ensures Trim("\n" + NOTES_PREFIX + c) == Trim("NOTES DE TERRAIN: " + c)
  {
    var v := "NOTES DE TERRAIN: " + c;
    assert "\n" + NOTES_PREFIX + c == ['\n'] + (['\n'] + v);
    TrimLeadingSpace('\n', ['\n'] + v);
    TrimLeadingSpace('\n', v);
  }

  /** A leading whitespace character makes no difference once trimmed. */
  lemma TrimLeadingSpace(ch: char, v: string)
    requires IsJsSpace(ch)
    ensures Trim([ch] + v) == Trim(v)
  {
    assert ([ch] + v)[1..] == v;
  }

  /**
   * The notes drawn from the written form: both tagged lines are cut out and
   * what remains is the notes line, its own label included, trimmed.
   */
  lemma WrittenNotes(r: string, d: string, c: string, cls: SeparatorClass)
    requires PlainField(r) && PlainField(d)
    requires !HasLabel(d, REQUERANT_LABEL) && !HasLabel(c, REQUERANT_LABEL) && !HasLabel(c, DESTINATAIRE_LABEL)
    ensures Notes(WrittenPrompt(r, d, c), cls) == Trim("NOTES DE TERRAIN: " + c)
  {
    RequerantCut(r, d, c, cls);
    DestinataireCut(d, c, cls);
    NotesLineTrim(c);
  }

  /**
   * A written form whose fields are plain lines and carry no tag of another
   * field reaches the draft intact: the parties upper-cased and trimmed, the
   * notes line trimmed, whichever separator class the patterns use.
   */
  lemma WrittenFormDrafted(r: string, d: string, c: string, task: string, cls: SeparatorClass, today: CalendarDay,
                           time: string, localeAmount: string)
    requires ValidCalendarDay(today) && PlainField(r) && PlainField(d)
    requires !HasLabel(r, DESTINATAIRE_LABEL) && !HasLabel(d, REQUERANT_LABEL)
    requires !HasLabel(c, REQUERANT_LABEL) && !HasLabel(c, DESTINATAIRE_LABEL)
    ensures var t := GenerateLegalAct(WrittenPrompt(r, d, c), task, cls, today, time, localeAmount);
      && t.requerant == ToUpper(Trim(r)) && t.destinataire == ToUpper(Trim(d))
      && t.notes == Trim("NOTES DE TERRAIN: " + c)
  {
    RequerantRoundTrip(r, d, c, cls);
    DestinataireRoundTrip(r, d, c, cls);
    WrittenNotes(r, d, c, cls);
  }

  // ---------------------------------------------------------------------
  // The act a generation creates
  // ---------------------------------------------------------------------

  const ZERO_FEES: ActFees := ActFees(0.0, 0.0, 0.0, 0.0, 0.0)

  /**
   * The fee record a generated act carries as the code is written: emoluments,
   * debours, tva and total, all zero. The model's new act carries the
   * five-field `ZERO_FEES` instead.
   */
  const NEW_ACT_FEES_AS_WRITTEN: Editor.FeeValue := Editor.FourFieldFees(0.0, 0.0, 0.0, 0.0)

  /**
   * As written, a generated act opens in the editor with fees that lack
   * `transport`, `registration` and `tax`, so the document view cannot render it.
   */
  lemma GeneratedFeesBreakDocument()
    ensures "transport" !in Editor.FieldsOf(NEW_ACT_FEES_AS_WRITTEN)
    ensures !Editor.DocumentRenders(NEW_ACT_FEES_AS_WRITTEN)
  {
    Editor.RendersOnlyBreakdown(NEW_ACT_FEES_AS_WRITTEN);
  }

  /** A freshly generated draft: titled by type and date, keeping the prompt it was drafted from. */
  function NewAct(id: string, task: string, todayIso: string, prompt: string, draft: string): (act: LegalAct)
    ensures act.id == id && act.actType == task && act.date == todayIso
    ensures act.rawTranscription == prompt && act.legalContent == draft
    ensures act.status == Draft && act.evidence == Some([]) && act.fees == Some(ZERO_FEES)
  {
    LegalAct(id, task + " - " + todayIso, task, todayIso, prompt, draft, Draft, Some([]), Some(ZERO_FEES))
  }

  /**
   * A new act opens in the editor with a consistent all-zero breakdown, shows
   * as a draft with no evidence on the dashboard, and its title reads back as
   * the act type and the date.
   */
  lemma NewActOpensClean(id: string, task: string, todayIso: string, prompt: string, draft: string)
    ensures var act := NewAct(id, task, todayIso, prompt, draft);
      && Editor.Consistent(ZERO_FEES) && Editor.InitialFees(act) == ZERO_FEES
      && Editor.DocumentRenders(Editor.Breakdown(Editor.InitialFees(act)))
      && Dashboard.StatusBadge(act.status) == Dashboard.BADGE_DRAFT && Dashboard.EvidenceCount(act) == 0
      && |act.title| == |task| + 3 + |todayIso|
      && act.title[..|task|] == task && act.title[|task|..|task| + 3] == " - " && act.title[|task| + 3..] == todayIso
  {
    Editor.RendersOnlyBreakdown(Editor.Breakdown(ZERO_FEES));
    var t := NewAct(id, task, todayIso, prompt, draft).title;
    assert t == task + " - " + todayIso;
    assert t[..|task|] == task;
    assert t[|task|..|task| + 3] == " - ";
  }

  /**
   * The act recorded for a generation: the drafted template rendered as its
   * content. The draft is taken with the same-line separator class (see the
   * findings in the README).
   */
  function GeneratedAct(task: string, prompt: string, nowId: string, todayIso: string, today: CalendarDay, time: string,
                        localeAmount: string, render: ActTemplate -> string): LegalAct
    requires ValidCalendarDay(today)
  {
    NewAct(nowId, task, todayIso, prompt, render(GenerateLegalAct(prompt, task, SameLine, today, time, localeAmount)))
  }

  // ---------------------------------------------------------------------
  // Backup export and import
  // ---------------------------------------------------------------------

  const BACKUP_VERSION: string := "1.0"

  /** The backup file's content. */
  datatype Backup = Backup(profile: UserProfile, acts: seq<LegalAct>, exportDate: string, version: string)

  function ExportBundle(profile: UserProfile, acts: seq<LegalAct>, exportDate: string): (b: Backup)
    ensures b.profile == profile && b.acts == acts && b.exportDate == exportDate && b.version == BACKUP_VERSION
  {
    Backup(profile, acts, exportDate, BACKUP_VERSION)
  }

  /**
   * A chosen file once parsed as JSON: text that does not parse (with the
   * parser's message), or an object whose `profile` may be missing or falsy
   * and whose `acts` may be missing or not an array.
   */
  datatype ImportFile = Unparseable(message: string) | Parsed(profile: Option<UserProfile>, acts: Option<seq<LegalAct>>)

  /** Writing a backup and parsing it back, with the JSON layer taken as lossless. */
  function Encode(b: Backup): ImportFile {
    Parsed(Some(b.profile), Some(b.acts))
  }

  const INVALID_FORMAT: string := "Format de fichier invalide."

  /** A file is accepted only with a profile and an array of acts; otherwise the error names why. */
  function ValidateImport(f: ImportFile): (r: Result<(UserProfile, seq<LegalAct>), string>)
    ensures r.Ok? <==> f.Parsed? && f.profile.Some? && f.acts.Some?
    ensures r.Ok? ==> r.value == (f.profile.value, f.acts.value)
    ensures r.Err? ==> r.error == if f.Unparseable? then f.message else INVALID_FORMAT
  {
    match f
    case Unparseable(message) => Err(message)
    case Parsed(profile, acts) =>
      if profile.Some? && acts.Some? then Ok((profile.value, acts.value)) else Err(INVALID_FORMAT)
  }

  /** Importing an exported backup restores exactly the profile and the acts that were exported. */
  lemma ExportImportRoundTrip(profile: UserProfile, acts: seq<LegalAct>, exportDate: string)
    ensures ValidateImport(Encode(ExportBundle(profile, acts, exportDate))) == Ok((profile, acts))
  {
  }

  // ---------------------------------------------------------------------
  // The session
  // ---------------------------------------------------------------------

  datatype View = DashboardView | NewActView | EditorView | SettingsView

  datatype AuthUser = AuthUser(id: string, studyId: string, email: string)

  /** Every login is attached to the demonstration study. */
  const DEMO_STUDY_ID: string := "STUDY_BRAZZA_01"

  /** What the user is told by an alert box. */
  datatype Alert = ImportSucceeded | ImportFailed(message: string)

  const DEFAULT_PROFILE: UserProfile := UserProfile(
    "Jean OKOMBI",
    "Étude de Maître Jean OKOMBI",
    "HUISS-CG-2024-089",
    "CG-BZV-01-2024-B12-00456",
    "BGFI BANK CONGO - IBAN: CG76 3000 4000 0123 4567 8901 234",
    "Tribunal de Grande Instance de Brazzaville",
    "12 Rue des Avocats, Quartier Centre-Ville",
    "Brazzaville",
    "+242 06 123 4567",
    "etude.okombi@justice.cg",
    "")

  /**
   * The list shown after a save followed by a re-read: the re-read list when
   * both calls succeed, otherwise the list shown before (the failure is caught).
   */
  function ActsAfterSave(shown: seq<LegalAct>, studyId: string, cache: map<string, Stored<seq<LegalAct>>>,
                         act: LegalAct, read: Reply<seq<ActRow>>, reread: Reply<seq<ActRow>>): seq<LegalAct>
  {
    match ActsRead(read, Cached(cache, ActsKey(studyId)))
    case Err(_) => shown
    case Ok(existing) =>
      match ActsRead(reread, Cached(cache[ActsKey(studyId) := Json(Upsert(existing, act))], ActsKey(studyId)))
      case Err(_) => shown
      case Ok(listed) => listed
  }

  /**
   * The acts cache after a save: the study's entry becomes the read list with
   * the act upserted, unless the read failed, in which case nothing is written.
   */
  function CacheAfterSave(cache: map<string, Stored<seq<LegalAct>>>, studyId: string, act: LegalAct,
                          read: Reply<seq<ActRow>>): map<string, Stored<seq<LegalAct>>>
  {
    match ActsRead(read, Cached(cache, ActsKey(studyId)))
    case Err(_) => cache
    case Ok(existing) => cache[ActsKey(studyId) := Json(Upsert(existing, act))]
  }

  /**
   * The side effects of a save followed by a re-read: the read's log; then, if
   * it succeeded, the cache write, the upsert and its log, and the re-read's log.
   */
  function SaveTrace(cache: map<string, Stored<seq<LegalAct>>>, studyId: string, act: LegalAct,
                     read: Reply<seq<ActRow>>, write: WriteReply, reread: Reply<seq<ActRow>>): seq<Event>
  {
    QueryLog("getActs", read)
      + if ActsRead(read, Cached(cache, ActsKey(studyId))).Err? then []
        else [CacheWrite(ActsKey(studyId)), ActUpsert(ActToRow(studyId, act))] + UpsertLog("saveAct", write)
             + QueryLog("getActs", reread)
  }

  /** The two outcomes of the read, spelt out as the save produces them. */
  lemma SaveEffects(cache: map<string, Stored<seq<LegalAct>>>, studyId: string, act: LegalAct,
                    read: Reply<seq<ActRow>>, write: WriteReply, reread: Reply<seq<ActRow>>)
    ensures var existing := ActsRead(read, Cached(cache, ActsKey(studyId)));
      && (existing.Err? ==> CacheAfterSave(cache, studyId, act, read) == cache
                            && SaveTrace(cache, studyId, act, read, write, reread) == QueryLog("getActs", read))
      && (existing.Ok? ==> CacheAfterSave(cache, studyId, act, read) == cache[ActsKey(studyId) := Json(Upsert(existing.value, act))]
                           && SaveTrace(cache, studyId, act, read, write, reread)
                              == QueryLog("getActs", read) + [CacheWrite(ActsKey(studyId)), ActUpsert(ActToRow(studyId, act))]
                                 + UpsertLog("saveAct", write) + QueryLog("getActs", reread))
  {
  }

  /** Appending four pieces one at a time appends their concatenation. */
  lemma AppendFour(t: seq<Event>, a: seq<Event>, b: seq<Event>, c: seq<Event>, d: seq<Event>)
    ensures t + a + b + c + d == t + (a + b + c + d)
  {
  }

  /**
   * Offline, a save that could read the current list makes the saved act
   * appear in the list shown; a corrupt cache leaves the list shown as it was.
   */
  lemma SavedActIsShownOffline(shown: seq<LegalAct>, studyId: string, cache: map<string, Stored<seq<LegalAct>>>,
                               act: LegalAct, read: Reply<seq<ActRow>>, reread: Reply<seq<ActRow>>)
    requires !read.Data? && !reread.Data?
    ensures Cached(cache, ActsKey(studyId)).Garbage? ==> ActsAfterSave(shown, studyId, cache, act, read, reread) == shown
    ensures !Cached(cache, ActsKey(studyId)).Garbage? ==> Listed(ActsAfterSave(shown, studyId, cache, act, read, reread), act)
  {
    if !Cached(cache, ActsKey(studyId)).Garbage? {
      ListAfterSaveOffline(studyId, cache, act, read, reread);
    }
  }

  /** The application's state for one browser tab. */
  class Session {
    const storage: Storage
    var user: Option<AuthUser>
    var view: View
    var acts: seq<LegalAct>
    var currentAct: Option<LegalAct>
    var selectedTask: Option<string>
    var inputMethod: Option<InputMethod>
    var requerant: string
    var destinataire: string
    var notes: string
    var profile: UserProfile
    var isInitializing: bool
    var isLoading: bool
    var isSyncing: bool
    /** The `huissier_auth` entry of local storage. */
    var savedAuth: Stored<AuthUser>
    /** The `huissier_profile` entry of local storage. */
    var savedProfile: Stored<UserProfile>
    var alerts: seq<Alert>

    constructor (storage: Storage, savedAuth: Stored<AuthUser>, savedProfile: Stored<UserProfile>)
      ensures this.storage == storage && this.savedAuth == savedAuth && this.savedProfile == savedProfile
      ensures user == None && view == DashboardView && acts == [] && currentAct == None
      ensures selectedTask == None && inputMethod == None && requerant == "" && destinataire == "" && notes == ""
      ensures profile == DEFAULT_PROFILE && isInitializing && !isLoading && !isSyncing && alerts == []
    {
      this.storage := storage;
      user := None;
      view := DashboardView;
      acts := [];
      currentAct := None;
      selectedTask := None;
      inputMethod := None;
      requerant := "";
      destinataire := "";
      notes := "";
      profile := DEFAULT_PROFILE;
      isInitializing := true;
      isLoading := false;
      isSyncing := false;
      this.savedAuth := savedAuth;
      this.savedProfile := savedProfile;
      alerts := [];
    }

    /** The backup of the current profile and acts; importing it gives them back. */
    function ExportData(exportDate: string): (b: Backup)
      reads this
      ensures b.version == BACKUP_VERSION && b.exportDate == exportDate
      ensures ValidateImport(Encode(b)) == Ok((profile, acts))
    {
      ExportBundle(profile, acts, exportDate)
    }

    /** The profile auto-save: whenever a user is logged in, the profile is mirrored into local storage. */
    method MirrorProfile()
      modifies this`savedProfile
      ensures savedProfile == if user.Some? then Json(profile) else old(savedProfile)
    {
      if user.Some? {
        savedProfile := Json(profile);
      }
    }

    /**
     * Start-up: restore the saved profile, then the saved login and its acts.
     * A saved entry that does not parse aborts the start-up, which then never
     * leaves the loading screen.
     */
    method InitApp(remote: Reply<seq<ActRow>>)
      modifies this`isInitializing, this`profile, this`user, this`acts, this`savedProfile, storage`trace
      ensures old(savedProfile).Garbage? ==> isInitializing && profile == old(profile) && user == old(user) && acts == old(acts)
      ensures !old(savedProfile).Garbage? ==>
        && profile == (if old(savedProfile).Json? then old(savedProfile).value else old(profile))
        && (old(savedAuth).Garbage? ==> isInitializing && user == old(user) && acts == old(acts))
        && (old(savedAuth).Blank? ==> !isInitializing && user == old(user) && acts == old(acts))
        && (old(savedAuth).Json? ==>
              && !isInitializing && user == Some(old(savedAuth).value)
              && acts == ActsRead(remote, Cached(storage.actsCache, ActsKey(old(savedAuth).value.studyId))).GetOr([]))
      ensures savedProfile == if user.Some? then Json(profile) else old(savedProfile)
    {
      isInitializing := true;
      match savedProfile {
        case Garbage =>
          MirrorProfile();
          return;
        case Json(p) =>
          profile := p;
        case Blank =>
      }
      match savedAuth {
        case Garbage =>
        case Blank =>
          isInitializing := false;
        case Json(u) =>
          user := Some(u);
          var listed := storage.GetActs(u.studyId, remote);
          acts := listed.GetOr([]);
          isInitializing := false;
      }
      MirrorProfile();
    }

    /**
     * Login: the user is attached to the demonstration study and remembered,
     * the saved profile restored, and the study's acts loaded (an empty list
     * when the read fails). A saved profile that does not parse aborts the
     * login after the user was set, leaving the loading screen up.
     */
    method HandleLogin(authenticated: AuthUser, remote: Reply<seq<ActRow>>)
      modifies this`isInitializing, this`user, this`savedAuth, this`profile, this`acts, this`savedProfile, storage`trace
      ensures user == Some(authenticated.(studyId := DEMO_STUDY_ID)) && savedAuth == Json(user.value)
      ensures old(savedProfile).Garbage? ==> isInitializing && profile == old(profile) && acts == old(acts)
      ensures !old(savedProfile).Garbage? ==>
        && !isInitializing
        && profile == (if old(savedProfile).Json? then old(savedProfile).value else old(profile))
        && acts == ActsRead(remote, Cached(storage.actsCache, ActsKey(DEMO_STUDY_ID))).GetOr([])
      ensures savedProfile == Json(profile)
    {
      isInitializing := true;
      var u := authenticated.(studyId := DEMO_STUDY_ID);
      user := Some(u);
      savedAuth := Json(u);
      match savedProfile {
        case Garbage =>
          MirrorProfile();
          return;
        case Json(p) =>
          profile := p;
        case Blank =>
      }
      var listed := storage.GetActs(u.studyId, remote);
      acts := listed.GetOr([]);
      isInitializing := false;
      MirrorProfile();
    }

    method HandleLogout()
      modifies this`user, this`savedAuth, this`view
      ensures user == None && savedAuth == Blank && view == DashboardView
    {
      user := None;
      savedAuth := Blank;
      view := DashboardView;
    }

    /** Back to an empty new-act form. */
    method ResetFlow()
      modifies this`selectedTask, this`inputMethod, this`requerant, this`destinataire, this`notes
      ensures FlowCleared()
    {
      selectedTask := None;
      inputMethod := None;
      requerant := "";
      destinataire := "";
      notes := "";
    }

    /**
     * Save through the storage layer and re-read the list; a failure of
     * either call is caught and leaves the list shown as it was.
     */
    method SaveAndRefresh(studyId: string, act: LegalAct, read: Reply<seq<ActRow>>, write: WriteReply, reread: Reply<seq<ActRow>>)
      modifies this`acts, storage`actsCache, storage`trace
      ensures acts == ActsAfterSave(old(acts), studyId, old(storage.actsCache), act, read, reread)
      ensures storage.actsCache == CacheAfterSave(old(storage.actsCache), studyId, act, read)
      ensures storage.trace == old(storage.trace) + SaveTrace(old(storage.actsCache), studyId, act, read, write, reread)
    {
      ghost var cache0, trace0 := storage.actsCache, storage.trace;
      ghost var existing := ActsRead(read, Cached(cache0, ActsKey(studyId)));
      SaveEffects(cache0, studyId, act, read, write, reread);
      var saved := storage.SaveAct(studyId, act, read, write);
      if saved.Ok? {
        assert existing.Ok? && storage.actsCache == CacheAfterSave(cache0, studyId, act, read);
        ghost var trace1 := storage.trace;
        assert trace1 == trace0 + QueryLog("getActs", read) + [CacheWrite(ActsKey(studyId)), ActUpsert(ActToRow(studyId, act))]
                         + UpsertLog("saveAct", write);
        var listed := storage.GetActs(studyId, reread);
        assert listed == ActsRead(reread, Cached(CacheAfterSave(cache0, studyId, act, read), ActsKey(studyId)));
        AppendFour(trace0, QueryLog("getActs", read), [CacheWrite(ActsKey(studyId)), ActUpsert(ActToRow(studyId, act))],
                   UpsertLog("saveAct", write), QueryLog("getActs", reread));
        if listed.Ok? {
          acts := listed.value;
        }
      } else {
        assert existing.Err?;
      }
    }

    /** The new-act form is empty: no act type, no input method, blank fields. */
    predicate FlowCleared()
      reads this
    {
      selectedTask == None && inputMethod == None && requerant == "" && destinataire == "" && notes == ""
    }

    /**
     * Generate a draft from the chosen act type and the form (or dictation),
     * record it as a new act, save it, open it in the editor and reset the
     * form. Without a chosen act type or a logged-in user nothing happens.
     */
    method ProcessGeneration(content: string, nowId: string, todayIso: string, today: CalendarDay, time: string,
                             localeAmount: string, render: ActTemplate -> string,
                             read: Reply<seq<ActRow>>, write: WriteReply, reread: Reply<seq<ActRow>>)
      requires ValidCalendarDay(today)
      modifies this`acts, this`currentAct, this`view, this`isLoading, this`isSyncing
      modifies this`selectedTask, this`inputMethod, this`requerant, this`destinataire, this`notes
      modifies storage`actsCache, storage`trace
      ensures old(selectedTask).None? || user.None? ==>
        && unchanged(this`acts, this`currentAct, this`view, this`selectedTask, this`inputMethod)
        && unchanged(this`requerant, this`destinataire, this`notes, storage`actsCache)
        && unchanged(this`isLoading, this`isSyncing, storage`trace)
      ensures old(selectedTask).Some? && user.Some? ==>
        var act := GeneratedAct(old(selectedTask).value, ComposePrompt(old(inputMethod), old(requerant), old(destinataire), content),
                                nowId, todayIso, today, time, localeAmount, render);
        && currentAct == Some(act) && view == EditorView
        && acts == ActsAfterSave(old(acts), user.value.studyId, old(storage.actsCache), act, read, reread)
        && storage.actsCache == CacheAfterSave(old(storage.actsCache), user.value.studyId, act, read)
        && storage.trace == old(storage.trace) + SaveTrace(old(storage.actsCache), user.value.studyId, act, read, write, reread)
        && !isLoading && !isSyncing && FlowCleared()
    {
      if selectedTask.None? || user.None? {
        return;
      }
      var prompt := ComposePrompt(inputMethod, requerant, destinataire, content);
      var act := GeneratedAct(selectedTask.value, prompt, nowId, todayIso, today, time, localeAmount, render);
      RecordGenerated(act, read, write, reread);
    }

    /** Save the generated act, open it in the editor and reset the form. */
    method RecordGenerated(act: LegalAct, read: Reply<seq<ActRow>>, write: WriteReply, reread: Reply<seq<ActRow>>)
      requires user.Some?
      modifies this`acts, this`currentAct, this`view, this`isLoading, this`isSyncing
      modifies this`selectedTask, this`inputMethod, this`requerant, this`destinataire, this`notes
      modifies storage`actsCache, storage`trace
      ensures currentAct == Some(act) && view == EditorView
      ensures acts == ActsAfterSave(old(acts), user.value.studyId, old(storage.actsCache), act, read, reread)
      ensures storage.actsCache == CacheAfterSave(old(storage.actsCache), user.value.studyId, act, read)
      ensures storage.trace == old(storage.trace) + SaveTrace(old(storage.actsCache), user.value.studyId, act, read, write, reread)
      ensures !isLoading && !isSyncing && FlowCleared()
    {
      isLoading := true;
      isSyncing := true;
      SaveAndRefresh(user.value.studyId, act, read, write, reread);
      isSyncing := false;
      OpenGenerated(act);
    }

    /** Open the saved draft in the editor, stop the spinner and reset the form. */
    method OpenGenerated(act: LegalAct)
      modifies this`currentAct, this`view, this`isLoading
      modifies this`selectedTask, this`inputMethod, this`requerant, this`destinataire, this`notes
      ensures currentAct == Some(act) && view == EditorView && !isLoading && FlowCleared()
    {
      currentAct := Some(act);
      view := EditorView;
      isLoading := false;
      ResetFlow();
    }

    /** Save an edited act, refresh the list and go back to the dashboard. */
    method HandleSaveAct(updated: LegalAct, read: Reply<seq<ActRow>>, write: WriteReply, reread: Reply<seq<ActRow>>)
      modifies this`acts, this`view, this`isSyncing, storage`actsCache, storage`trace
      ensures user.None? ==> acts == old(acts) && view == old(view) && storage.actsCache == old(storage.actsCache)
      ensures user.None? ==> isSyncing == old(isSyncing) && storage.trace == old(storage.trace)
      ensures user.Some? ==>
        && acts == ActsAfterSave(old(acts), user.value.studyId, old(storage.actsCache), updated, read, reread)
        && storage.actsCache == CacheAfterSave(old(storage.actsCache), user.value.studyId, updated, read)
        && storage.trace == old(storage.trace) + SaveTrace(old(storage.actsCache), user.value.studyId, updated, read, write, reread)
        && view == DashboardView && !isSyncing
    {
      if user.None? {
        return;
      }
      isSyncing := true;
      SaveAndRefresh(user.value.studyId, updated, read, write, reread);
      isSyncing := false;
      view := DashboardView;
    }

    /**
     * Replace the profile and all acts from a backup file, after the user
     * confirmed; a file without a profile or an acts array replaces nothing.
     */
    method ImportData(file: Option<ImportFile>, confirmed: bool)
      modifies this`profile, this`acts, this`alerts, this`savedProfile
      ensures file.None? || !confirmed ==>
        profile == old(profile) && acts == old(acts) && alerts == old(alerts) && savedProfile == old(savedProfile)
      ensures file.Some? && confirmed ==>
        match ValidateImport(file.value)
        case Ok((p, a)) =>
          && profile == p && acts == a && alerts == old(alerts) + [ImportSucceeded]
          && savedProfile == (if user.Some? then Json(p) else old(savedProfile))
        case Err(message) =>
          && profile == old(profile) && acts == old(acts) && alerts == old(alerts) + [ImportFailed(message)]
          && savedProfile == old(savedProfile)
    {
      if file.None? || !confirmed {
        return;
      }
      match ValidateImport(file.value) {
        case Ok((p, a)) =>
          profile := p;
          acts := a;
          alerts := alerts + [ImportSucceeded];
          MirrorProfile();
        case Err(message) =>
          alerts := alerts + [ImportFailed(message)];
      }
    }
  }

  /** Exporting and then importing the backup (confirmed) leaves the session's profile and acts as they were. */
  method ExportThenImport(session: Session, exportDate: string)
    modifies session`profile, session`acts, session`alerts, session`savedProfile
    ensures session.profile == old(session.profile) && session.acts == old(session.acts)
    ensures session.alerts == old(session.alerts) + [ImportSucceeded]
  {
    var backup := session.ExportData(exportDate);
    session.ImportData(Some(Encode(backup)), true);
  }
}
