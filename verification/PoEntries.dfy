/** What the PO parser makes of whole entries, told from their lines. */
module PoEntries {
  import opened Wrappers
  import opened PoText
  import opened PoEscape
  import opened PoParser
  import opened PotPrinter

  // ---------------------------------------------------------------- entries and their lines

  /** The raw text on a keyword line and on the continuation lines after it. */
  datatype Field = Field(first: string, more: seq<string>)

  /** An entry as written: one translation, or a plural with its forms in the order of their index. */
  datatype PoEntry = Singular(id: Field, str: Field) | Plural(id: Field, plural: Field, forms: seq<Field>)

  function Continued(raw: string): string {
    "\"" + raw + "\""
  }

  function ContinuedLines(more: seq<string>): (lines: seq<string>)
    ensures |lines| == |more|
  {
    if more == [] then [] else ContinuedLines(more[..|more| - 1]) + [Continued(more[|more| - 1])]
  }

  function FieldLines(keyword: string, f: Field): seq<string> {
    [Quoted(keyword, f.first)] + ContinuedLines(f.more)
  }

  /** The keyword of form i is `msgstr[i]`, with the index in decimal. */
  function FormKeyword(i: nat): string {
    "msgstr[" + Decimal(i) + "]"
  }

  function FormsLines(forms: seq<Field>): seq<string> {
    if forms == [] then []
    else FormsLines(forms[..|forms| - 1]) + FieldLines(FormKeyword(|forms| - 1), forms[|forms| - 1])
  }

  function LinesOf(e: PoEntry): seq<string> {
    match e
    case Singular(id, str) => FieldLines("msgid", id) + FieldLines("msgstr", str)
    case Plural(id, plural, forms) =>
      FieldLines("msgid", id) + (FieldLines("msgid_plural", plural) + FormsLines(forms))
  }

  // ---------------------------------------------------------------- what they mean

  function Texts(more: seq<string>): string {
    if more == [] then "" else Texts(more[..|more| - 1]) + Unescape(more[|more| - 1])
  }

  /** The text of a field is that of all its lines. */
  function TextOf(f: Field): string {
    Unescape(f.first) + Texts(f.more)
  }

  function FormTexts(forms: seq<Field>): map<nat, string> {
    map i: nat | i < |forms| :: TextOf(forms[i])
  }

  /** A plural without forms is not stored. */
  function With(result: map<string, string>, e: PoEntry, dumps: Dumps): map<string, string> {
    match e
    case Singular(id, str) => result[TextOf(id) := TextOf(str)]
    case Plural(id, _, forms) => if forms == [] then result else result[TextOf(id) := dumps(FormTexts(forms))]
  }

  // ---------------------------------------------------------------- single lines

  function DigitChar(k: nat): (c: char)
    requires k < 10
    ensures IsDigit(c) && c as int - '0' as int == k
  {
    "0123456789"[k]
  }

  lemma {:induction false} DecimalRead(n: nat)
    ensures ParseNat(Decimal(n)) == n
  {
    var d := DigitChar(n % 10);
    assert ParseNat([]) == 0;
    if n < 10 {
      assert Decimal(n) == [d] && [d][..0] == [];
    } else {
      DecimalRead(n / 10);
      assert (Decimal(n / 10) + [d])[..|Decimal(n / 10)|] == Decimal(n / 10);
    }
  }

  lemma {:induction false} DigitsEnd(s: string, i: nat, n: nat)
    requires i <= n < |s| && !IsDigit(s[n]) && forall k :: i <= k < n ==> IsDigit(s[k])
    ensures SkipDigits(s, i) == n
    decreases n - i
  {
    if i < n {
      DigitsEnd(s, i + 1, n);
    }
  }

  /** Quoted text that ends a line, from position i on. */
  lemma QuotedEnd(line: string, i: nat, raw: string)
    requires i + |raw| + 2 == |line| && line[i] == '\"' && line[|line| - 1] == '\"' && line[i + 1..|line| - 1] == raw
    ensures QuotedAt(line, i) == Some(raw)
  {
    assert TrimRight(line) == line;
  }

  /** The line is the keyword with digits d, a blank and quoted text. */
  predicate FormShaped(line: string, d: string, raw: string) {
    var j := 7 + |d|;
    && |line| == j + |raw| + 4 && "msgstr[" <= line && line[7..j] == d && line[j] == ']'
    && line[j + 1] == ' ' && line[j + 2] == '\"' && line[|line| - 1] == '\"'
    && line[j + 3..|line| - 1] == raw
  }

  lemma FormParts(d: string, raw: string)
    ensures FormShaped(("msgstr[" + d + "]") + (" \"" + raw + "\""), d, raw)
  {
    var line := ("msgstr[" + d + "]") + (" \"" + raw + "\"");
    assert line == "msgstr[" + (d + ("]" + (" \"" + raw + "\"")));
  }

  lemma OneSpace(line: string, i: nat)
    requires i + 1 < |line| && line[i] == ' ' && !IsSpace(line[i + 1])
    ensures SkipSpace(line, i) == i + 1
  {
  }

  lemma FormMatches(line: string, d: string, raw: string)
    requires d != [] && (forall k :: 0 <= k < |d| ==> IsDigit(d[k])) && FormShaped(line, d, raw)
    ensures PluralString(line) == Some((ParseNat(d), raw))
  {
    var j := 7 + |d|;
    forall k | 7 <= k < j ensures IsDigit(line[k]) {
      assert line[7..j][k - 7] == line[k];
    }
    DigitsEnd(line, 7, j);
    OneSpace(line, j + 1);
    QuotedEnd(line, j + 2, raw);
  }

  /** A form line is matched with its index and its text. */
  lemma FormLine(i: nat, raw: string)
    ensures var line := Quoted(FormKeyword(i), raw);
            Strip(line) == line && PluralString(line) == Some((i, raw))
  {
    FormParts(Decimal(i), raw);
    FormMatches(Quoted(FormKeyword(i), raw), Decimal(i), raw);
    DecimalRead(i);
    StripNothing(Quoted(FormKeyword(i), raw));
  }

  // ---------------------------------------------------------------- single steps

  /** A printed line is neither blank nor a comment. */
  lemma NoGap(keyword: string, raw: string)
    requires keyword != [] && keyword[0] == 'm'
    ensures var line := Quoted(keyword, raw); Strip(line) == line && line != "" && line[0] != '#'
  {
    StripNothing(Quoted(keyword, raw));
  }

  lemma IdStep(st: State, raw: string, dumps: Dumps)
    ensures Step(st, Quoted("msgid", raw), dumps)
         == State(Flush(st, dumps), Some(Unescape(raw)), st.plural, None, map[], true, false, false, false)
  {
    NoGap("msgid", raw);
    KeywordLine("msgid", raw);
  }

  /** The longer keyword is not taken for the shorter one. */
  lemma NotMsgid(raw: string)
    ensures KeywordString(Quoted("msgid_plural", raw), "msgid").None?
  {
    var line := Quoted("msgid_plural", raw);
    assert line[5] == '_';
    assert SkipSpace(line, 5) == 5;
  }

  lemma PluralIdStep(st: State, raw: string, dumps: Dumps)
    ensures Step(st, Quoted("msgid_plural", raw), dumps)
         == st.(plural := Some(Unescape(raw)), inMsgid := false, inPlural := true)
  {
    NoGap("msgid_plural", raw);
    NotMsgid(raw);
    KeywordLine("msgid_plural", raw);
  }

  lemma NoMsgid(line: string)
    requires |line| >= 4 && line[3] == 's'
    ensures KeywordString(line, "msgid").None? && KeywordString(line, "msgid_plural").None?
  {
    assert "msgid"[3] == 'i' && "msgid_plural"[3] == 'i';
  }

  lemma StrStep(st: State, raw: string, dumps: Dumps)
    ensures Step(st, Quoted("msgstr", raw), dumps)
         == st.(msgstr := Some(Unescape(raw)),
                inMsgstr := true, inMsgid := false, inPlural := false, inPluralStr := false)
  {
    NoGap("msgstr", raw);
    NoMsgid(Quoted("msgstr", raw));
    KeywordLine("msgstr", raw);
  }

  lemma NotMsgstr(line: string)
    requires |line| > 6 && line[6] == '['
    ensures KeywordString(line, "msgstr").None?
  {
    assert SkipSpace(line, 6) == 6;
  }

  lemma FormStep(st: State, i: nat, raw: string, dumps: Dumps)
    ensures Step(st, Quoted(FormKeyword(i), raw), dumps)
         == st.(plurals := st.plurals[i := Unescape(raw)],
                inPluralStr := true, inMsgstr := false, inMsgid := false, inPlural := false)
  {
    var line := Quoted(FormKeyword(i), raw);
    NoGap(FormKeyword(i), raw);
    NoMsgid(line);
    NotMsgstr(line);
    FormLine(i, raw);
  }

  lemma ContinuedStep(st: State, raw: string, dumps: Dumps)
    ensures Step(st, Continued(raw), dumps) == Continue(st, Unescape(raw))
  {
    var line := Continued(raw);
    ContinuationLine(raw);
    assert line[0] == '\"';
    assert !("msgid" <= line) && !("msgid_plural" <= line) && !("msgstr" <= line) && !("msgstr[" <= line);
  }

  /** Space around a line does not matter. */
  lemma PaddedStep(st: State, a: string, line: string, b: string, dumps: Dumps)
    requires AllSpace(a) && AllSpace(b) && Strip(line) == line
    ensures Step(st, a + (line + b), dumps) == Step(st, line, dumps)
  {
    SameStripped(a, line, b);
    StepSees(st, a + (line + b), line, dumps);
  }

  lemma SameStripped(a: string, line: string, b: string)
    requires AllSpace(a) && AllSpace(b) && Strip(line) == line
    ensures Strip(a + (line + b)) == Strip(line)
  {
    if line != [] {
      StripEnds(line);
    }
    StripPadded(a, line, b);
  }

  /** A step sees nothing but the stripped line. */
  lemma StepSees(st: State, raw: string, line: string, dumps: Dumps)
    requires Strip(raw) == Strip(line)
    ensures Step(st, raw, dumps) == Step(st, line, dumps)
  {
  }

  lemma StripEnds(line: string)
    requires Strip(line) == line && line != []
    ensures !IsSpace(line[0]) && !IsSpace(line[|line| - 1])
  {
  }

  // ---------------------------------------------------------------- fields with continuation lines

  /** The state while the id is read; p is a plural id left over from an entry before. */
  function InId(r: map<string, string>, p: Option<string>, id: string): State {
    State(r, Some(id), p, None, map[], true, false, false, false)
  }

  function InPlural(r: map<string, string>, id: Option<string>, plural: string): State {
    State(r, id, Some(plural), None, map[], false, false, true, false)
  }

  function InStr(r: map<string, string>, p: Option<string>, id: string, str: string): State {
    State(r, Some(id), p, Some(str), map[], false, true, false, false)
  }

  function InForms(r: map<string, string>, id: Option<string>, plural: string, forms: map<nat, string>): State {
    State(r, id, Some(plural), None, forms, false, false, false, true)
  }

  lemma LastLine(st: State, more: seq<string>, dumps: Dumps)
    requires more != []
    ensures var n := |more| - 1;
            Steps(st, ContinuedLines(more), dumps)
            == Continue(Steps(st, ContinuedLines(more[..n]), dumps), Unescape(more[n]))
  {
    var n := |more| - 1;
    var lines := ContinuedLines(more);
    assert lines[..n] == ContinuedLines(more[..n]);
    ContinuedStep(Steps(st, lines[..n], dumps), more[n], dumps);
  }

  lemma TextGrows(t: string, more: seq<string>)
    requires more != []
    ensures t + Texts(more) == (t + Texts(more[..|more| - 1])) + Unescape(more[|more| - 1])
  {
    Regroup(t, Texts(more[..|more| - 1]), Unescape(more[|more| - 1]));
  }

  lemma {:induction false} IdGrows(r: map<string, string>, p: Option<string>, id: string, more: seq<string>,
                                   dumps: Dumps)
    ensures Steps(InId(r, p, id), ContinuedLines(more), dumps) == InId(r, p, id + Texts(more))
  {
    if more == [] {
      assert id + "" == id;
    } else {
      IdGrows(r, p, id, more[..|more| - 1], dumps);
      LastLine(InId(r, p, id), more, dumps);
      TextGrows(id, more);
    }
  }

  lemma {:induction false} PluralGrows(r: map<string, string>, id: Option<string>, plural: string, more: seq<string>,
                                       dumps: Dumps)
    ensures Steps(InPlural(r, id, plural), ContinuedLines(more), dumps) == InPlural(r, id, plural + Texts(more))
  {
    if more == [] {
      assert plural + "" == plural;
    } else {
      PluralGrows(r, id, plural, more[..|more| - 1], dumps);
      LastLine(InPlural(r, id, plural), more, dumps);
      TextGrows(plural, more);
    }
  }

  lemma {:induction false} StrGrows(r: map<string, string>, p: Option<string>, id: string, str: string,
                                    more: seq<string>, dumps: Dumps)
    ensures Steps(InStr(r, p, id, str), ContinuedLines(more), dumps) == InStr(r, p, id, str + Texts(more))
  {
    if more == [] {
      assert str + "" == str;
    } else {
      StrGrows(r, p, id, str, more[..|more| - 1], dumps);
      LastLine(InStr(r, p, id, str), more, dumps);
      TextGrows(str, more);
    }
  }

  lemma PutTwice(m: map<nat, string>, k: nat, a: string, b: string)
    ensures m[k := a][k := b] == m[k := b]
  {
  }

  /** A continuation line goes to the form with the highest index. */
  lemma FormContinues(r: map<string, string>, id: Option<string>, plural: string, forms: map<nat, string>,
                      k: nat, t: string, text: string)
    requires forall i :: i in forms ==> i <= k
    ensures Continue(InForms(r, id, plural, forms[k := t]), text) == InForms(r, id, plural, forms[k := t + text])
  {
    var m := forms[k := t];
    assert k in m && m != map[] && MaxKey(m) == k;
    PutTwice(forms, k, t, t + text);
  }

  lemma {:induction false} FormGrows(r: map<string, string>, id: Option<string>, plural: string,
                                     forms: map<nat, string>, k: nat, t: string, more: seq<string>, dumps: Dumps)
    requires forall i :: i in forms ==> i <= k
    ensures Steps(InForms(r, id, plural, forms[k := t]), ContinuedLines(more), dumps)
         == InForms(r, id, plural, forms[k := t + Texts(more)])
  {
    if more == [] {
      assert t + "" == t;
    } else {
      var n := |more| - 1;
      FormGrows(r, id, plural, forms, k, t, more[..n], dumps);
      LastLine(InForms(r, id, plural, forms[k := t]), more, dumps);
      FormContinues(r, id, plural, forms, k, t + Texts(more[..n]), Unescape(more[n]));
      TextGrows(t, more);
    }
  }

  // ---------------------------------------------------------------- whole fields

  lemma FirstLine(st: State, keyword: string, f: Field, dumps: Dumps)
    ensures Steps(st, FieldLines(keyword, f), dumps)
         == Steps(Step(st, Quoted(keyword, f.first), dumps), ContinuedLines(f.more), dumps)
  {
    StepsAppend(st, [Quoted(keyword, f.first)], ContinuedLines(f.more), dumps);
    StepsOne(st, Quoted(keyword, f.first), dumps);
  }

  lemma IdField(st: State, f: Field, dumps: Dumps)
    ensures Steps(st, FieldLines("msgid", f), dumps) == InId(Flush(st, dumps), st.plural, TextOf(f))
  {
    FirstLine(st, "msgid", f, dumps);
    IdStep(st, f.first, dumps);
    IdGrows(Flush(st, dumps), st.plural, Unescape(f.first), f.more, dumps);
  }

  lemma PluralField(r: map<string, string>, p: Option<string>, id: string, f: Field, dumps: Dumps)
    ensures Steps(InId(r, p, id), FieldLines("msgid_plural", f), dumps) == InPlural(r, Some(id), TextOf(f))
  {
    FirstLine(InId(r, p, id), "msgid_plural", f, dumps);
    PluralIdStep(InId(r, p, id), f.first, dumps);
    PluralGrows(r, Some(id), Unescape(f.first), f.more, dumps);
  }

  lemma StrField(r: map<string, string>, p: Option<string>, id: string, f: Field, dumps: Dumps)
    ensures Steps(InId(r, p, id), FieldLines("msgstr", f), dumps) == InStr(r, p, id, TextOf(f))
  {
    FirstLine(InId(r, p, id), "msgstr", f, dumps);
    StrStep(InId(r, p, id), f.first, dumps);
    StrGrows(r, p, id, Unescape(f.first), f.more, dumps);
  }

  /** The state before the first form, or after some. */
  function BeforeForm(r: map<string, string>, id: Option<string>, plural: string, forms: seq<Field>): State {
    if forms == [] then InPlural(r, id, plural) else InForms(r, id, plural, FormTexts(forms))
  }

  lemma FormTextsGrow(forms: seq<Field>)
    requires forms != []
    ensures var n := |forms| - 1; FormTexts(forms) == FormTexts(forms[..n])[n := TextOf(forms[n])]
  {
  }

  lemma FormField(r: map<string, string>, id: Option<string>, plural: string, forms: seq<Field>, dumps: Dumps)
    requires forms != []
    ensures var n := |forms| - 1;
            Steps(BeforeForm(r, id, plural, forms[..n]), FieldLines(FormKeyword(n), forms[n]), dumps)
            == InForms(r, id, plural, FormTexts(forms))
  {
    var n := |forms| - 1;
    var f, st := forms[n], BeforeForm(r, id, plural, forms[..n]);
    FirstLine(st, FormKeyword(n), f, dumps);
    OpensForm(r, id, plural, forms[..n], f.first, dumps);
    FormGrows(r, id, plural, FormTexts(forms[..n]), n, Unescape(f.first), f.more, dumps);
    FormTextsGrow(forms);
  }

  lemma OpensForm(r: map<string, string>, id: Option<string>, plural: string, before: seq<Field>, raw: string,
                  dumps: Dumps)
    ensures Step(BeforeForm(r, id, plural, before), Quoted(FormKeyword(|before|), raw), dumps)
         == InForms(r, id, plural, FormTexts(before)[|before| := Unescape(raw)])
  {
    FormStep(BeforeForm(r, id, plural, before), |before|, raw, dumps);
    assert before == [] ==> FormTexts(before) == map[];
  }

  lemma {:induction false} FormsRead(r: map<string, string>, id: Option<string>, plural: string, forms: seq<Field>,
                                     dumps: Dumps)
    ensures Steps(InPlural(r, id, plural), FormsLines(forms), dumps) == BeforeForm(r, id, plural, forms)
  {
    if forms != [] {
      var n := |forms| - 1;
      FormsRead(r, id, plural, forms[..n], dumps);
      StepsAppend(InPlural(r, id, plural), FormsLines(forms[..n]), FieldLines(FormKeyword(n), forms[n]), dumps);
      FormField(r, id, plural, forms, dumps);
    }
  }

  // ---------------------------------------------------------------- whole entries

  /** Wherever the current entry ends, by a new one, a gap or the end of the text, r is the result. */
  ghost predicate Stands(st: State, r: map<string, string>, dumps: Dumps) {
    Flush(st, dumps) == r && FlushAll(st, dumps) == r
  }

  lemma SingularRead(st: State, r: map<string, string>, id: Field, str: Field, dumps: Dumps)
    requires Stands(st, r, dumps)
    ensures Stands(Steps(st, LinesOf(Singular(id, str)), dumps), r[TextOf(id) := TextOf(str)], dumps)
  {
    StepsAppend(st, FieldLines("msgid", id), FieldLines("msgstr", str), dumps);
    IdField(st, id, dumps);
    StrField(r, st.plural, TextOf(id), str, dumps);
  }

  lemma FormsStand(r: map<string, string>, id: Field, plural: Field, forms: seq<Field>, dumps: Dumps)
    ensures var e := Plural(id, plural, forms);
            Stands(BeforeForm(r, Some(TextOf(id)), TextOf(plural), forms), With(r, e, dumps), dumps)
  {
    assert forms != [] ==> 0 in FormTexts(forms);
  }

  lemma PluralRead(st: State, r: map<string, string>, id: Field, plural: Field, forms: seq<Field>, dumps: Dumps)
    requires Stands(st, r, dumps)
    ensures var e := Plural(id, plural, forms);
            Stands(Steps(st, LinesOf(e), dumps), With(r, e, dumps), dumps)
  {
    var rest := FieldLines("msgid_plural", plural) + FormsLines(forms);
    StepsAppend(st, FieldLines("msgid", id), rest, dumps);
    IdField(st, id, dumps);
    StepsAppend(InId(r, st.plural, TextOf(id)), FieldLines("msgid_plural", plural), FormsLines(forms), dumps);
    PluralField(r, st.plural, TextOf(id), plural, dumps);
    FormsRead(r, Some(TextOf(id)), TextOf(plural), forms, dumps);
    FormsStand(r, id, plural, forms, dumps);
  }

  lemma OrphanStored(r: map<string, string>, plural: string, forms: seq<Field>, dumps: Dumps)
    requires forms != []
    ensures var st := BeforeForm(r, None, plural, forms);
            FlushAll(st, dumps) == r[plural := dumps(FormTexts(forms))] && Flush(st, dumps) == r
  {
    assert 0 in FormTexts(forms);
  }

  /** Plural forms without an id are stored under the plural id at a gap or at the end of the text, and
      lost when another entry follows at once. */
  lemma OrphanRead(r: map<string, string>, plural: Field, forms: seq<Field>, dumps: Dumps)
    requires forms != []
    ensures var st := Steps(Between(r), FieldLines("msgid_plural", plural) + FormsLines(forms), dumps);
            FlushAll(st, dumps) == r[TextOf(plural) := dumps(FormTexts(forms))] && Flush(st, dumps) == r
  {
    StepsAppend(Between(r), FieldLines("msgid_plural", plural), FormsLines(forms), dumps);
    OrphanField(r, plural, dumps);
    FormsRead(r, None, TextOf(plural), forms, dumps);
    OrphanStored(r, TextOf(plural), forms, dumps);
  }

  lemma OrphanField(r: map<string, string>, f: Field, dumps: Dumps)
    ensures Steps(Between(r), FieldLines("msgid_plural", f), dumps) == InPlural(r, None, TextOf(f))
  {
    FirstLine(Between(r), "msgid_plural", f, dumps);
    PluralIdStep(Between(r), f.first, dumps);
    PluralGrows(r, None, Unescape(f.first), f.more, dumps);
  }

  /** A blank line or a comment. */
  predicate IsGap(line: string) {
    Strip(line) == "" || Strip(line)[0] == '#'
  }

  lemma {:induction false} GapsRead(st: State, r: map<string, string>, gaps: seq<string>, dumps: Dumps)
    requires Stands(st, r, dumps) && forall i :: 0 <= i < |gaps| ==> IsGap(gaps[i])
    ensures Stands(Steps(st, gaps, dumps), r, dumps)
  {
    if gaps != [] {
      GapsRead(st, r, gaps[..|gaps| - 1], dumps);
    }
  }

  /** An entry and the blank lines and comments after it, if any. */
  datatype Block = Block(entry: PoEntry, gaps: seq<string>) {
    predicate Valid() {
      forall i :: 0 <= i < |gaps| ==> IsGap(gaps[i])
    }
  }

  function AllLines(blocks: seq<Block>): seq<string> {
    if blocks == [] then []
    else AllLines(blocks[..|blocks| - 1]) + (LinesOf(blocks[|blocks| - 1].entry) + blocks[|blocks| - 1].gaps)
  }

  function Catalogue(blocks: seq<Block>, dumps: Dumps): map<string, string> {
    if blocks == [] then map[]
    else With(Catalogue(blocks[..|blocks| - 1], dumps), blocks[|blocks| - 1].entry, dumps)
  }

  lemma EntryRead(st: State, r: map<string, string>, e: PoEntry, dumps: Dumps)
    requires Stands(st, r, dumps)
    ensures Stands(Steps(st, LinesOf(e), dumps), With(r, e, dumps), dumps)
  {
    match e
    case Singular(id, str) => SingularRead(st, r, id, str, dumps);
    case Plural(id, plural, forms) => PluralRead(st, r, id, plural, forms, dumps);
  }

  lemma {:induction false} BlocksRead(st: State, blocks: seq<Block>, dumps: Dumps)
    requires Stands(st, map[], dumps) && forall i :: 0 <= i < |blocks| ==> blocks[i].Valid()
    ensures Stands(Steps(st, AllLines(blocks), dumps), Catalogue(blocks, dumps), dumps)
  {
    if blocks != [] {
      var front, last := blocks[..|blocks| - 1], blocks[|blocks| - 1];
      var lines := LinesOf(last.entry);
      BlocksRead(st, front, dumps);
      StepsAppend(st, AllLines(front), lines + last.gaps, dumps);
      var mid := Steps(st, AllLines(front), dumps);
      StepsAppend(mid, lines, last.gaps, dumps);
      EntryRead(mid, Catalogue(front, dumps), last.entry, dumps);
      GapsRead(Steps(mid, lines, dumps), Catalogue(blocks, dumps), last.gaps, dumps);
    }
  }

  /**
   * Parsing any text made of entries gives the last translation of each id, whether or not blank
   * lines or comments stand between them; plural forms are dumped under their indices, and
   * continuation lines belong to the field before them.
   */
  lemma ParsesEntries(content: string, header: seq<string>, blocks: seq<Block>, dumps: Dumps)
    requires SplitLines(content) == header + AllLines(blocks)
    requires forall i :: 0 <= i < |header| ==> IsGap(header[i])
    requires forall i :: 0 <= i < |blocks| ==> blocks[i].Valid()
    ensures Parse(content, dumps) == Catalogue(blocks, dumps)
  {
    GapsRead(START, map[], header, dumps);
    StepsAppend(START, header, AllLines(blocks), dumps);
    BlocksRead(Steps(START, header, dumps), blocks, dumps);
  }

  /** Such a text, with a line feed after every line. */
  lemma ParsesPrinted(blocks: seq<Block>, dumps: Dumps)
    requires forall i :: 0 <= i < |blocks| ==> blocks[i].Valid()
    requires forall i :: 0 <= i < |AllLines(blocks)| ==> OneLine(AllLines(blocks)[i])
    ensures Parse(JoinLines(AllLines(blocks) + [""]), dumps) == Catalogue(blocks, dumps)
  {
    var lines := AllLines(blocks) + [""];
    SplitJoinedLines(lines);
    assert lines[..|lines| - 1] == AllLines(blocks) == [] + AllLines(blocks);
    ParsesEntries(JoinLines(lines), [], blocks, dumps);
  }
}
