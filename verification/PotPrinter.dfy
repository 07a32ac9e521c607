/** The POT printer of `ExtractionTool.extract_to_pot`, and the proof that the PO parser reads
    back what it prints. */
module PotPrinter {
  import opened Wrappers
  import opened PoText
  import opened PoEscape
  import opened PoParser

  datatype Location = Location(file: string, line: nat)

  /** One extracted string; entries come in the order of their sorted keys. */
  datatype Entry = Entry(key: string, locations: seq<Location>, contexts: seq<string>)

  function Decimal(n: nat): (s: string)
    ensures s != [] && forall i :: 0 <= i < |s| ==> IsDigit(s[i])
  {
    var d := "0123456789"[n % 10];
    if n < 10 then [d] else Decimal(n / 10) + [d]
  }

  function Quoted(keyword: string, text: string): string {
    keyword + (" \"" + text + "\"")
  }

  // ---------------------------------------------------------------- the lines printed

  const TITLE := "# Ainos i18n" + " Translation Template"
  const GENERATOR := "# Generated by" + " Ainos i18n" + " Extraction Tool"
  const PROJECT := "Project-Id-Version: AinosOS"
  const MIME := "MIME-Version: 1.0"
  const CONTENT_TYPE := "Content-Type: text/plain;" + " charset=UTF-8"
  const ENCODING := "Content-Transfer-Encoding: 8bit"
  const PLURALS := "Plural-Forms: nplurals=2;" + " plural=(n != 1);"

  /** A header field as printed: quoted, with an escaped line feed at the end. */
  function FieldLine(field: string): string {
    "\"" + (field + "\\n") + "\""
  }

  function HeaderLines(timestamp: string): seq<string> {
    [TITLE, GENERATOR, "# Date: " + timestamp, "#", Quoted("msgid", ""), Quoted("msgstr", ""),
     FieldLine(PROJECT), FieldLine(MIME), FieldLine(CONTENT_TYPE), FieldLine(ENCODING), FieldLine(PLURALS),
     ""]
  }

  function LocationLine(l: Location): string {
    "#: " + l.file + ":" + Decimal(l.line)
  }

  function ContextLine(c: string): string {
    "#. context: " + c
  }

  function LocationLines(ls: seq<Location>): seq<string> {
    if ls == [] then [] else LocationLines(ls[..|ls| - 1]) + [LocationLine(ls[|ls| - 1])]
  }

  function ContextLines(cs: seq<string>): seq<string> {
    if cs == [] then [] else ContextLines(cs[..|cs| - 1]) + [ContextLine(cs[|cs| - 1])]
  }

  function EntryLines(e: Entry): seq<string> {
    LocationLines(e.locations) + ContextLines(e.contexts) + [Quoted("msgid", Escape(e.key)), Quoted("msgstr", ""), ""]
  }

  function PotLines(timestamp: string, entries: seq<Entry>): (lines: seq<string>)
    ensures lines != [] && lines[|lines| - 1] == ""
  {
    if entries == [] then HeaderLines(timestamp)
    else PotLines(timestamp, entries[..|entries| - 1]) + EntryLines(entries[|entries| - 1])
  }

  method ExtractToPot(timestamp: string, entries: seq<Entry>) returns (content: string)
    ensures content == JoinLines(PotLines(timestamp, entries))
  {
    var lines := HeaderLines(timestamp);
    for n := 0 to |entries|
      invariant lines == PotLines(timestamp, entries[..n])
    {
      assert entries[..n + 1][..n] == entries[..n];
      lines := PrintEntry(lines, entries[n]);
    }
    assert entries[..|entries|] == entries;
    content := JoinLines(lines);
  }

  /** The loop body: comments for locations and contexts, then the entry itself. */
  method PrintEntry(before: seq<string>, e: Entry) returns (lines: seq<string>)
    ensures lines == before + EntryLines(e)
  {
    lines := PrintLocations(before, e.locations);
    if |e.contexts| > 0 {
      lines := PrintContexts(lines, e.contexts);
    }
    var escaped := Escape(e.key);
    lines := lines + [Quoted("msgid", escaped)];
    lines := lines + [Quoted("msgstr", "")];
    lines := lines + [""];
  }

  method PrintLocations(before: seq<string>, locations: seq<Location>) returns (lines: seq<string>)
    ensures lines == before + LocationLines(locations)
  {
    lines := before;
    for i := 0 to |locations|
      invariant lines == before + LocationLines(locations[..i])
    {
      assert locations[..i + 1][..i] == locations[..i];
      lines := lines + [LocationLine(locations[i])];
    }
    assert locations[..|locations|] == locations;
  }

  method PrintContexts(before: seq<string>, contexts: seq<string>) returns (lines: seq<string>)
    ensures lines == before + ContextLines(contexts)
  {
    lines := before;
    for i := 0 to |contexts|
      invariant lines == before + ContextLines(contexts[..i])
    {
      assert contexts[..i + 1][..i] == contexts[..i];
      lines := lines + [ContextLine(contexts[i])];
    }
    assert contexts[..|contexts|] == contexts;
  }

  lemma {:induction false} LocationLineAt(ls: seq<Location>, i: nat)
    requires i < |ls|
    ensures |LocationLines(ls)| == |ls|
    ensures LocationLines(ls)[i] == "#: " + ls[i].file + ":" + Decimal(ls[i].line)
  {
    if |ls| > 1 {
      LocationLineAt(ls[..|ls| - 1], if i < |ls| - 1 then i else 0);
    }
  }

  lemma {:induction false} ContextLineAt(cs: seq<string>, i: nat)
    requires i < |cs|
    ensures |ContextLines(cs)| == |cs| && ContextLines(cs)[i] == "#. context: " + cs[i]
  {
    if |cs| > 1 {
      ContextLineAt(cs[..|cs| - 1], if i < |cs| - 1 then i else 0);
    }
  }

  /** The comment lines of an entry: each location with its line, then each context. */
  lemma EntryComments(e: Entry, i: nat)
    requires i < |e.locations| + |e.contexts|
    ensures |EntryLines(e)| == |e.locations| + |e.contexts| + 3
    ensures EntryLines(e)[i] ==
              if i < |e.locations| then "#: " + e.locations[i].file + ":" + Decimal(e.locations[i].line)
              else "#. context: " + e.contexts[i - |e.locations|]
  {
    if e.locations != [] {
      LocationLineAt(e.locations, if i < |e.locations| then i else 0);
    }
    if e.contexts != [] {
      ContextLineAt(e.contexts, if i < |e.locations| then 0 else i - |e.locations|);
    }
  }

  // ---------------------------------------------------------------- reading it back

  lemma {:induction false} StepsAppend(st: State, a: seq<string>, b: seq<string>, dumps: Dumps)
    ensures Steps(st, a + b, dumps) == Steps(Steps(st, a, dumps), b, dumps)
    decreases |b|
  {
    if b == [] {
      assert a + b == a;
    } else {
      assert (a + b)[..|a + b| - 1] == a + b[..|b| - 1];
      StepsAppend(st, a, b[..|b| - 1], dumps);
    }
  }

  lemma StepsOne(st: State, line: string, dumps: Dumps)
    ensures Steps(st, [line], dumps) == Step(st, line, dumps)
  {
    assert [line][..0] == [];
  }

  /** Between entries the parser has an empty current entry. */
  function Between(result: map<string, string>): State {
    START.(result := result)
  }

  /** A comment line between entries changes nothing. */
  lemma CommentStep(result: map<string, string>, line: string, dumps: Dumps)
    requires line != [] && line[0] == '#'
    ensures Step(Between(result), line, dumps) == Between(result)
  {
    StripKeepsHead(line);
  }

  lemma {:induction false} CommentSteps(result: map<string, string>, lines: seq<string>, dumps: Dumps)
    requires forall i :: 0 <= i < |lines| ==> lines[i] != [] && lines[i][0] == '#'
    ensures Steps(Between(result), lines, dumps) == Between(result)
  {
    if lines != [] {
      CommentSteps(result, lines[..|lines| - 1], dumps);
      CommentStep(result, lines[|lines| - 1], dumps);
    }
  }

  lemma {:induction false} LocationLinesAreComments(ls: seq<Location>, i: nat)
    requires i < |LocationLines(ls)|
    ensures LocationLines(ls)[i] != [] && LocationLines(ls)[i][0] == '#'
  {
    if i < |LocationLines(ls[..|ls| - 1])| {
      LocationLinesAreComments(ls[..|ls| - 1], i);
    }
  }

  lemma {:induction false} ContextLinesAreComments(cs: seq<string>, i: nat)
    requires i < |ContextLines(cs)|
    ensures ContextLines(cs)[i] != [] && ContextLines(cs)[i][0] == '#'
  {
    if i < |ContextLines(cs[..|cs| - 1])| {
      ContextLinesAreComments(cs[..|cs| - 1], i);
    }
  }

  /** The state after the line `msgid "..."`. */
  function AfterMsgid(result: map<string, string>, id: string): State {
    Between(result).(msgid := Some(id), inMsgid := true)
  }

  /** The state after the line `msgstr "..."` and its continuation lines. */
  function AfterMsgstr(result: map<string, string>, id: string, text: string): State {
    Between(result).(msgid := Some(id), msgstr := Some(text), inMsgstr := true)
  }

  lemma MsgidStep(result: map<string, string>, text: string, dumps: Dumps)
    ensures Step(Between(result), Quoted("msgid", text), dumps) == AfterMsgid(result, Unescape(text))
  {
    KeywordLine("msgid", text);
  }

  lemma MsgstrStep(result: map<string, string>, id: string, text: string, dumps: Dumps)
    ensures Step(AfterMsgid(result, id), Quoted("msgstr", text), dumps) == AfterMsgstr(result, id, Unescape(text))
  {
    KeywordLine("msgstr", text);
    var line := Quoted("msgstr", text);
    assert line[3] == 's' && line[4] == 't';
    assert "msgid"[3] == 'i';
    assert !("msgid" <= line) && !("msgid_plural" <= line);
  }

  lemma BlankStep(result: map<string, string>, id: string, text: string, dumps: Dumps)
    ensures Step(AfterMsgstr(result, id, text), "", dumps) == Between(result[id := text])
  {
    assert Strip("") == "";
  }

  lemma FieldStep(result: map<string, string>, id: string, text: string, field: string, dumps: Dumps)
    ensures Step(AfterMsgstr(result, id, text), FieldLine(field), dumps)
         == AfterMsgstr(result, id, text + Unescape(field + "\\n"))
  {
    var line := FieldLine(field);
    ContinuationLine(field + "\\n");
    assert line == "\"" + (field + "\\n") + "\"";
    assert line[0] == '\"';
    assert !("msgid" <= line) && !("msgid_plural" <= line) && !("msgstr" <= line) && !("msgstr[" <= line);
  }

  /** One printed entry adds its decoded key with an empty translation. */
  lemma EntrySteps(result: map<string, string>, e: Entry, dumps: Dumps)
    ensures Steps(Between(result), EntryLines(e), dumps) == Between(result[RawDecode(e.key) := ""])
  {
    var comments := LocationLines(e.locations) + ContextLines(e.contexts);
    forall i | 0 <= i < |comments|
      ensures comments[i] != [] && comments[i][0] == '#'
    {
      if i < |LocationLines(e.locations)| {
        LocationLinesAreComments(e.locations, i);
      } else {
        ContextLinesAreComments(e.contexts, i - |LocationLines(e.locations)|);
      }
    }
    CommentSteps(result, comments, dumps);
    var id, str := Quoted("msgid", Escape(e.key)), Quoted("msgstr", "");
    StepsAppend(Between(result), comments, [id, str, ""], dumps);
    UnescapeEscape(e.key);
    UnescapeEmpty();
    MsgidStep(result, Escape(e.key), dumps);
    MsgstrStep(result, RawDecode(e.key), "", dumps);
    BlankStep(result, RawDecode(e.key), "", dumps);
    ThreeSteps(Between(result), id, str, "", dumps);
  }

  lemma ThreeSteps(st: State, a: string, b: string, c: string, dumps: Dumps)
    ensures Steps(st, [a, b, c], dumps) == Step(Step(Step(st, a, dumps), b, dumps), c, dumps)
  {
    assert [a, b, c] == [a, b] + [c];
    StepsAppend(st, [a, b], [c], dumps);
    StepsOne(Steps(st, [a, b], dumps), c, dumps);
    TwoSteps(st, a, b, dumps);
  }

  lemma UnescapeEmpty()
    ensures Unescape("") == ""
  {
    UnescapeStages("");
  }

  // ---------------------------------------------------------------- the header

  const HEADER: string :=
    PROJECT + "\n" + (MIME + "\n") + (CONTENT_TYPE + "\n") + (ENCODING + "\n") + (PLURALS + "\n")

  lemma {:induction false} DecodePlain(a: string, rest: string, x: char, y: char)
    requires BACKSLASH !in a
    ensures Decode(a + rest, x, y) == a + Decode(rest, x, y)
  {
    if a == [] {
      assert a + rest == rest;
    } else {
      assert a + rest == [a[0]] + (a[1..] + rest);
      NoMatch([a[0]], a[1..] + rest, x, y);
      DecodePlain(a[1..], rest, x, y);
      assert a == [a[0]] + a[1..];
    }
  }

  /** A header field comes back with its line feed. */
  lemma FieldDecodes(field: string)
    requires BACKSLASH !in field
    ensures Unescape(field + "\\n") == field + "\n"
  {
    UnescapeStages(field + "\\n");
    DecodePlain(field, "\\n", BACKSLASH, BACKSLASH);
    DecodePlain(field, "\\n", 'n', '\n');
    DecodePlain(field, "\n", 't', '\t');
    DecodePlain(field, "\n", 'r', '\r');
    DecodePlain(field, "\n", QUOTE, QUOTE);
    Match("\\n", "", 'n', '\n');
    assert "\\n" + "" == "\\n";
    assert Decode("\\n", BACKSLASH, BACKSLASH) == "\\n" by {
      NoMatchPair('n', "", BACKSLASH, BACKSLASH);
      assert "\\n" == [BACKSLASH, 'n'] + "";
    }
    assert Decode("\\n", 'n', '\n') == "\n" + "" == "\n";
    assert Decode("\n", 't', '\t') == Decode("\n", 'r', '\r') == Decode("\n", QUOTE, QUOTE) == "\n";
  }

  /** The header lines leave exactly the header text under the empty key. */
  lemma HeaderSteps(timestamp: string, dumps: Dumps)
    ensures Steps(START, HeaderLines(timestamp), dumps) == Between(map["" := HEADER])
  {
    var comments := [TITLE, GENERATOR, "# Date: " + timestamp, "#"];
    CommentSteps(map[], comments, dumps);
    var open := [Quoted("msgid", ""), Quoted("msgstr", "")];
    var fields := [FieldLine(PROJECT), FieldLine(MIME), FieldLine(CONTENT_TYPE), FieldLine(ENCODING),
                   FieldLine(PLURALS)];
    assert HeaderLines(timestamp) == comments + (open + (fields + [""]));
    StepsAppend(START, comments, open + (fields + [""]), dumps);
    StepsAppend(START, open, fields + [""], dumps);
    UnescapeEmpty();
    TwoSteps(START, open[0], open[1], dumps);
    MsgidStep(map[], "", dumps);
    MsgstrStep(map[], "", "", dumps);
    var st := AfterMsgstr(map[], "", "");
    StepsAppend(st, fields, [""], dumps);
    FieldsSteps(dumps);
    StepsOne(AfterMsgstr(map[], "", HEADER), "", dumps);
    BlankStep(map[], "", HEADER, dumps);
  }

  lemma TwoSteps(st: State, a: string, b: string, dumps: Dumps)
    ensures Steps(st, [a, b], dumps) == Step(Step(st, a, dumps), b, dumps)
  {
    assert [a, b][..1] == [a];
    StepsOne(st, a, dumps);
  }

  lemma FieldsSteps(dumps: Dumps)
    ensures Steps(AfterMsgstr(map[], "", ""),
                  [FieldLine(PROJECT), FieldLine(MIME), FieldLine(CONTENT_TYPE), FieldLine(ENCODING),
                   FieldLine(PLURALS)],
                  dumps)
         == AfterMsgstr(map[], "", HEADER)
  {
    var t1 := PROJECT + "\n";
    var t2 := t1 + (MIME + "\n");
    var t3 := t2 + (CONTENT_TYPE + "\n");
    var t4 := t3 + (ENCODING + "\n");
    FieldsDecode();
    FieldStep(map[], "", "", PROJECT, dumps);
    assert "" + t1 == t1;
    FieldStep(map[], "", t1, MIME, dumps);
    FieldStep(map[], "", t2, CONTENT_TYPE, dumps);
    FieldStep(map[], "", t3, ENCODING, dumps);
    FieldStep(map[], "", t4, PLURALS, dumps);
    FiveSteps(AfterMsgstr(map[], "", ""), FieldLine(PROJECT), FieldLine(MIME), FieldLine(CONTENT_TYPE),
              FieldLine(ENCODING), FieldLine(PLURALS), dumps);
  }

  lemma NoBackslash1()
    ensures BACKSLASH !in PROJECT
    ensures BACKSLASH !in MIME
  {
  }

  lemma NoBackslash2()
    ensures BACKSLASH !in CONTENT_TYPE
  {
  }

  lemma NoBackslash3()
    ensures BACKSLASH !in ENCODING
  {
  }

  lemma NoBackslash4()
    ensures BACKSLASH !in PLURALS
  {
  }

  lemma FieldsDecode()
    ensures Unescape(PROJECT + "\\n") == PROJECT + "\n"
    ensures Unescape(MIME + "\\n") == MIME + "\n"
    ensures Unescape(CONTENT_TYPE + "\\n") == CONTENT_TYPE + "\n"
    ensures Unescape(ENCODING + "\\n") == ENCODING + "\n"
    ensures Unescape(PLURALS + "\\n") == PLURALS + "\n"
  {
    NoBackslash1();
    NoBackslash2();
    NoBackslash3();
    NoBackslash4();
    FieldDecodes(PROJECT);
    FieldDecodes(MIME);
    FieldDecodes(CONTENT_TYPE);
    FieldDecodes(ENCODING);
    FieldDecodes(PLURALS);
  }

  lemma FiveSteps(st: State, a: string, b: string, c: string, d: string, e: string, dumps: Dumps)
    ensures Steps(st, [a, b, c, d, e], dumps)
         == Step(Step(Step(Step(Step(st, a, dumps), b, dumps), c, dumps), d, dumps), e, dumps)
  {
    assert [a, b, c, d, e] == [a, b, c] + [d, e];
    StepsAppend(st, [a, b, c], [d, e], dumps);
    ThreeSteps(st, a, b, c, dumps);
    TwoSteps(Steps(st, [a, b, c], dumps), d, e, dumps);
  }

  // ---------------------------------------------------------------- the whole file

  /** What the parser must find: the header, and one empty translation per decoded key. */
  function Decoded(entries: seq<Entry>): map<string, string> {
    if entries == [] then map["" := HEADER]
    else Decoded(entries[..|entries| - 1])[RawDecode(entries[|entries| - 1].key) := ""]
  }

  lemma {:induction false} PotSteps(timestamp: string, entries: seq<Entry>, dumps: Dumps)
    ensures Steps(START, PotLines(timestamp, entries), dumps) == Between(Decoded(entries))
  {
    if entries == [] {
      HeaderSteps(timestamp, dumps);
    } else {
      var n := |entries| - 1;
      PotSteps(timestamp, entries[..n], dumps);
      StepsAppend(START, PotLines(timestamp, entries[..n]), EntryLines(entries[n]), dumps);
      EntrySteps(Decoded(entries[..n]), entries[n], dumps);
    }
  }

  /** Timestamp, file names and contexts hold no line break, and keys none but those that
      the escaping turns into letters. */
  ghost predicate Printable(timestamp: string, entries: seq<Entry>) {
    && OneLine(timestamp)
    && forall i :: 0 <= i < |entries| ==> PrintableEntry(entries[i])
  }

  ghost predicate PrintableEntry(e: Entry) {
    && (forall c :: c in e.key && IsLineBreak(c) ==> c in {'\n', '\r'})
    && (forall i :: 0 <= i < |e.locations| ==> OneLine(e.locations[i].file))
    && (forall i :: 0 <= i < |e.contexts| ==> OneLine(e.contexts[i]))
  }

  ghost predicate AllOneLine(lines: seq<string>) {
    forall i :: 0 <= i < |lines| ==> OneLine(lines[i])
  }

  lemma EscapeOneLine(key: string)
    requires forall c :: c in key && IsLineBreak(c) ==> c in {'\n', '\r'}
    ensures OneLine(Escape(key))
  {
    EscapeIsEncode(key);
    forall i | 0 <= i < |Escape(key)|
      ensures !IsLineBreak(Escape(key)[i])
    {
      EncodeChars(key, CODED + {BACKSLASH}, Escape(key)[i]);
    }
  }

  lemma {:induction false} LocationsOneLine(ls: seq<Location>)
    requires forall i :: 0 <= i < |ls| ==> OneLine(ls[i].file)
    ensures AllOneLine(LocationLines(ls))
  {
    if ls != [] {
      LocationsOneLine(ls[..|ls| - 1]);
    }
  }

  lemma {:induction false} ContextsOneLine(cs: seq<string>)
    requires forall i :: 0 <= i < |cs| ==> OneLine(cs[i])
    ensures AllOneLine(ContextLines(cs))
  {
    if cs != [] {
      ContextsOneLine(cs[..|cs| - 1]);
    }
  }

  lemma EntryOneLine(e: Entry)
    requires PrintableEntry(e)
    ensures AllOneLine(EntryLines(e))
  {
    LocationsOneLine(e.locations);
    ContextsOneLine(e.contexts);
    EscapeOneLine(e.key);
    assert OneLine(Quoted("msgid", Escape(e.key)));
    assert OneLine(Quoted("msgstr", ""));
  }

  lemma HeaderOneLine(timestamp: string)
    requires OneLine(timestamp)
    ensures AllOneLine(HeaderLines(timestamp))
  {
    TitleOneLine();
    GeneratorOneLine();
    DateOneLine(timestamp);
    ProjectOneLine();
    MimeOneLine();
    ContentTypeOneLine();
    EncodingOneLine();
    PluralsOneLine();
    FieldLineOneLine(PROJECT);
    FieldLineOneLine(MIME);
    FieldLineOneLine(CONTENT_TYPE);
    FieldLineOneLine(ENCODING);
    FieldLineOneLine(PLURALS);
    assert OneLine(Quoted("msgid", "")) && OneLine(Quoted("msgstr", ""));
  }

  lemma OneLineConcat(a: string, b: string)
    requires OneLine(a) && OneLine(b)
    ensures OneLine(a + b)
  {
  }

  lemma TitleOneLine()
    ensures OneLine(TITLE)
  {
    OneLineConcat("# Ainos i18n", " Translation Template");
  }

  lemma GeneratorOneLine()
    ensures OneLine(GENERATOR)
  {
    OneLineConcat("# Generated by", " Ainos i18n");
    OneLineConcat("# Generated by" + " Ainos i18n", " Extraction Tool");
  }

  lemma DateOneLine(timestamp: string)
    requires OneLine(timestamp)
    ensures OneLine("# Date: " + timestamp)
  {
    OneLineConcat("# Date: ", timestamp);
  }

  lemma ProjectOneLine()
    ensures OneLine(PROJECT)
  {
  }

  lemma MimeOneLine()
    ensures OneLine(MIME)
  {
  }

  lemma ContentTypeOneLine()
    ensures OneLine(CONTENT_TYPE)
  {
    OneLineConcat("Content-Type: text/plain;", " charset=UTF-8");
  }

  lemma EncodingOneLine()
    ensures OneLine(ENCODING)
  {
  }

  lemma PluralsOneLine()
    ensures OneLine(PLURALS)
  {
    OneLineConcat("Plural-Forms: nplurals=2;", " plural=(n != 1);");
  }

  lemma FieldLineOneLine(field: string)
    requires OneLine(field)
    ensures OneLine(FieldLine(field))
  {
  }

  lemma {:induction false} PotOneLine(timestamp: string, entries: seq<Entry>)
    requires Printable(timestamp, entries)
    ensures AllOneLine(PotLines(timestamp, entries))
  {
    if entries == [] {
      HeaderOneLine(timestamp);
    } else {
      PotOneLine(timestamp, entries[..|entries| - 1]);
      EntryOneLine(entries[|entries| - 1]);
    }
  }

  /** Parsing any printed file yields the header and exactly the decoded keys. */
  lemma PotParsesTo(timestamp: string, entries: seq<Entry>, dumps: Dumps)
    requires Printable(timestamp, entries)
    ensures Parse(JoinLines(PotLines(timestamp, entries)), dumps) == Decoded(entries)
  {
    var lines := PotLines(timestamp, entries);
    var n := |lines| - 1;
    PotOneLine(timestamp, entries);
    SplitJoinedLines(lines);
    PotSteps(timestamp, entries, dumps);
    assert Strip("") == "";
    assert Step(Steps(START, lines[..n], dumps), "", dumps) == Between(Decoded(entries));
  }

  function Keys(entries: seq<Entry>): set<string> {
    if entries == [] then {} else Keys(entries[..|entries| - 1]) + {entries[|entries| - 1].key}
  }

  lemma {:induction false} KeysIff(entries: seq<Entry>, k: string)
    ensures k in Keys(entries) <==> exists i :: 0 <= i < |entries| && entries[i].key == k
  {
    if entries != [] {
      KeysIff(entries[..|entries| - 1], k);
    }
  }

  lemma {:induction false} DecodedKeys(entries: seq<Entry>, k: string)
    requires "" !in Keys(entries)
    ensures k in Decoded(entries) <==> k == "" || exists j :: j in Keys(entries) && RawDecode(j) == k
    ensures k in Decoded(entries) ==> Decoded(entries)[k] == if k == "" then HEADER else ""
  {
    if entries != [] {
      var n := |entries| - 1;
      DecodedKeys(entries[..n], k);
      RawDecodeNonEmpty(entries[n].key);
    }
  }

  /** Printing and parsing keeps the set of keys exactly when every key survives the escaping;
      then each key is there with an empty translation, beside the header. */
  lemma PotRoundTripIff(timestamp: string, entries: seq<Entry>, dumps: Dumps)
    requires Printable(timestamp, entries)
    requires "" !in Keys(entries)
    ensures var m := Parse(JoinLines(PotLines(timestamp, entries)), dumps);
            && (m.Keys == {""} + Keys(entries) <==> forall k :: k in Keys(entries) ==> Survives(k))
            && (forall k :: k in m ==> m[k] == if k == "" then HEADER else "")
            && "" in m
  {
    PotParsesTo(timestamp, entries, dumps);
    DecodedRoundTrip(entries);
  }

  lemma DecodedRoundTrip(entries: seq<Entry>)
    requires "" !in Keys(entries)
    ensures var m := Decoded(entries);
            && (m.Keys == {""} + Keys(entries) <==> forall k :: k in Keys(entries) ==> Survives(k))
            && (forall k :: k in m ==> m[k] == if k == "" then HEADER else "")
            && "" in m
  {
    var m := Decoded(entries);
    forall k
      ensures k in m <==> k == "" || exists j :: j in Keys(entries) && RawDecode(j) == k
      ensures k in m ==> m[k] == if k == "" then HEADER else ""
    {
      DecodedKeys(entries, k);
    }
    if m.Keys == {""} + Keys(entries) {
      AllSurvive(m.Keys, Keys(entries));
    }
    if forall k :: k in Keys(entries) ==> Survives(k) {
      forall k | k in Keys(entries)
        ensures RawDecode(k) == k
      {
        EscapeRoundTripIff(k);
        UnescapeEscape(k);
      }
      assert m.Keys == {""} + Keys(entries);
    }
  }

  lemma AllSurvive(found: set<string>, keys: set<string>)
    requires found == {""} + keys && "" !in keys
    requires forall k :: k in found ==> k == "" || exists j :: j in keys && RawDecode(j) == k
    ensures forall k :: k in keys ==> Survives(k)
  {
    forall k | k in keys
      ensures Survives(k)
    {
      assert k in found;
      var j :| j in keys && RawDecode(j) == k;
      RawDecodeSurvives(j);
    }
  }
}
