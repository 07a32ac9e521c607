/** The line state machine of `GettextLoader._parse_po_string`. */
module PoParser {
  import opened Wrappers
  import opened PoText
  import PoEscape

  /** The variables of the parse loop. */
  datatype State = State(
    result: map<string, string>,
    msgid: Option<string>,
    plural: Option<string>,
    msgstr: Option<string>,
    plurals: map<nat, string>,
    inMsgid: bool,
    inMsgstr: bool,
    inPlural: bool,
    inPluralStr: bool)

  const START: State := State(map[], None, None, None, map[], false, false, false, false)

  /** `json.dumps` of the plural forms. */
  type Dumps = map<nat, string> -> string

  /** Stores the current entry before a new msgid. */
  function Flush(st: State, dumps: Dumps): map<string, string> {
    if st.msgid.Some? && st.msgstr.Some? then st.result[st.msgid.value := st.msgstr.value]
    else if st.msgid.Some? && st.plurals != map[] then st.result[st.msgid.value := dumps(st.plurals)]
    else st.result
  }

  /** Stores the current entry at a blank line, a comment or the end of the text. */
  function FlushAll(st: State, dumps: Dumps): map<string, string> {
    if st.msgid.None? && st.plural.Some? && st.plurals != map[]
    then st.result[st.plural.value := dumps(st.plurals)]
    else Flush(st, dumps)
  }

  function MaxKey(m: map<nat, string>): (k: nat)
    requires m != map[]
    ensures k in m && forall j :: j in m ==> j <= k
  {
    MaxExists(m.Keys);
    var k :| k in m && forall j :: j in m ==> j <= k;
    k
  }

  lemma MaxExists(s: set<nat>)
    requires s != {}
    ensures exists k :: k in s && forall j :: j in s ==> j <= k
  {
    var k :| k in s;
    if s - {k} != {} {
      MaxExists(s - {k});
      var m :| m in s - {k} && forall j :: j in s - {k} ==> j <= m;
      var top := if m < k then k else m;
      assert forall j :: j in s ==> j == k || j in s - {k};
      assert top in s && forall j :: j in s ==> j <= top;
    } else {
      assert s == {k};
    }
  }

  /** Text on a continuation line goes to the field the last keyword line opened. */
  function Continue(st: State, text: string): State {
    if st.inMsgid && st.msgid.Some? then st.(msgid := Some(st.msgid.value + text))
    else if st.inPlural && st.plural.Some? then st.(plural := Some(st.plural.value + text))
    else if st.inMsgstr && st.msgstr.Some? then st.(msgstr := Some(st.msgstr.value + text))
    else if st.inPluralStr && st.plurals != map[] then
      var k := MaxKey(st.plurals);
      st.(plurals := st.plurals[k := st.plurals[k] + text])
    else st
  }

  /** One line of the text. */
  function Step(st: State, raw: string, dumps: Dumps): State {
    var line := Strip(raw);
    if line == "" || line[0] == '#' then
      START.(result := FlushAll(st, dumps))
    else if KeywordString(line, "msgid").Some? then
      State(Flush(st, dumps), Some(PoEscape.Unescape(KeywordString(line, "msgid").value)), st.plural, None, map[],
            true, false, false, false)
    else if KeywordString(line, "msgid_plural").Some? then
      st.(plural := Some(PoEscape.Unescape(KeywordString(line, "msgid_plural").value)),
          inMsgid := false, inPlural := true)
    else if KeywordString(line, "msgstr").Some? then
      st.(msgstr := Some(PoEscape.Unescape(KeywordString(line, "msgstr").value)),
          inMsgstr := true, inMsgid := false, inPlural := false, inPluralStr := false)
    else if PluralString(line).Some? then
      var (k, text) := PluralString(line).value;
      st.(plurals := st.plurals[k := PoEscape.Unescape(text)],
          inPluralStr := true, inMsgstr := false, inMsgid := false, inPlural := false)
    else if Continuation(line).Some? then
      Continue(st, PoEscape.Unescape(Continuation(line).value))
    else st
  }

  function Steps(st: State, lines: seq<string>, dumps: Dumps): State {
    if lines == [] then st else Step(Steps(st, lines[..|lines| - 1], dumps), lines[|lines| - 1], dumps)
  }

  /** The dictionary the parser returns. */
  function Parse(content: string, dumps: Dumps): map<string, string> {
    FlushAll(Steps(START, SplitLines(content), dumps), dumps)
  }

  lemma StepsNext(lines: seq<string>, i: nat, dumps: Dumps)
    requires i < |lines|
    ensures Steps(START, lines[..i + 1], dumps) == Step(Steps(START, lines[..i], dumps), lines[i], dumps)
  {
    assert lines[..i + 1][..i] == lines[..i];
  }

  method ParsePoString(content: string, dumps: Dumps) returns (result: map<string, string>)
    ensures result == Parse(content, dumps)
  {
    result := map[];
    var msgid: Option<string>, plural: Option<string>, msgstr: Option<string> := None, None, None;
    var plurals: map<nat, string> := map[];
    var inMsgid, inMsgstr, inPlural, inPluralStr := false, false, false, false;
    var lines := SplitLines(content);
    for i := 0 to |lines|
      invariant State(result, msgid, plural, msgstr, plurals, inMsgid, inMsgstr, inPlural, inPluralStr)
             == Steps(START, lines[..i], dumps)
    {
      ghost var st := State(result, msgid, plural, msgstr, plurals, inMsgid, inMsgstr, inPlural, inPluralStr);
      ghost var next := Step(st, lines[i], dumps);
      assert Steps(START, lines[..i + 1], dumps) == next by {
        StepsNext(lines, i, dumps);
      }
      var line := Strip(lines[i]);

      if line == "" || line[0] == '#' {
        result := FlushEntry(result, msgid, plural, msgstr, plurals, dumps);
        msgid, plural, msgstr, plurals := None, None, None, map[];
        inMsgid, inMsgstr, inPlural, inPluralStr := false, false, false, false;
        assert next == State(result, msgid, plural, msgstr, plurals, inMsgid, inMsgstr, inPlural, inPluralStr);
        continue;
      }

      var m := KeywordString(line, "msgid");
      if m.Some? {
        if msgid.Some? && msgstr.Some? {
          result := result[msgid.value := msgstr.value];
        } else if msgid.Some? && plurals != map[] {
          result := result[msgid.value := dumps(plurals)];
        }
        var text := PoEscape.UnescapePoString(m.value);
        msgid, msgstr, plurals := Some(text), None, map[];
        inMsgid, inMsgstr, inPlural, inPluralStr := true, false, false, false;
        assert next == State(result, msgid, plural, msgstr, plurals, inMsgid, inMsgstr, inPlural, inPluralStr);
        continue;
      }

      m := KeywordString(line, "msgid_plural");
      if m.Some? {
        var text := PoEscape.UnescapePoString(m.value);
        plural := Some(text);
        inMsgid, inPlural := false, true;
        assert next == State(result, msgid, plural, msgstr, plurals, inMsgid, inMsgstr, inPlural, inPluralStr);
        continue;
      }

      m := KeywordString(line, "msgstr");
      if m.Some? {
        var text := PoEscape.UnescapePoString(m.value);
        msgstr := Some(text);
        inMsgstr, inMsgid, inPlural, inPluralStr := true, false, false, false;
        assert next == State(result, msgid, plural, msgstr, plurals, inMsgid, inMsgstr, inPlural, inPluralStr);
        continue;
      }

      var p := PluralString(line);
      if p.Some? {
        var text := PoEscape.UnescapePoString(p.value.1);
        plurals := plurals[p.value.0 := text];
        inPluralStr, inMsgstr, inMsgid, inPlural := true, false, false, false;
        assert next == State(result, msgid, plural, msgstr, plurals, inMsgid, inMsgstr, inPlural, inPluralStr);
        continue;
      }

      m := Continuation(line);
      if m.Some? {
        var text := PoEscape.UnescapePoString(m.value);
        msgid, plural, msgstr, plurals := ContinueEntry(text, result, msgid, plural, msgstr, plurals,
                                                        inMsgid, inMsgstr, inPlural, inPluralStr);
      }
    }
    assert lines[..|lines|] == lines;
    result := FlushEntry(result, msgid, plural, msgstr, plurals, dumps);
  }

  /** Stores the current entry, as at a blank line, a comment and the end of the text. */
  method FlushEntry(before: map<string, string>, msgid: Option<string>, plural: Option<string>,
                    msgstr: Option<string>, plurals: map<nat, string>, dumps: Dumps)
    returns (result: map<string, string>)
    ensures result == FlushAll(State(before, msgid, plural, msgstr, plurals, false, false, false, false), dumps)
  {
    result := before;
    if msgid.Some? && msgstr.Some? {
      result := result[msgid.value := msgstr.value];
    } else if msgid.Some? && plurals != map[] {
      result := result[msgid.value := dumps(plurals)];
    } else if plural.Some? && plurals != map[] {
      result := result[plural.value := dumps(plurals)];
    }
  }

  /** Appends a continuation line to the field that the flags name. */
  method ContinueEntry(text: string, ghost result: map<string, string>, msgid: Option<string>, plural: Option<string>,
                       msgstr: Option<string>, plurals: map<nat, string>,
                       inMsgid: bool, inMsgstr: bool, inPlural: bool, inPluralStr: bool)
    returns (newId: Option<string>, newPlural: Option<string>, newStr: Option<string>, newPlurals: map<nat, string>)
    ensures Continue(State(result, msgid, plural, msgstr, plurals, inMsgid, inMsgstr, inPlural, inPluralStr), text)
         == State(result, newId, newPlural, newStr, newPlurals, inMsgid, inMsgstr, inPlural, inPluralStr)
  {
    newId, newPlural, newStr, newPlurals := msgid, plural, msgstr, plurals;
    if inMsgid && msgid.Some? {
      newId := Some(msgid.value + text);
    } else if inPlural && plural.Some? {
      newPlural := Some(plural.value + text);
    } else if inMsgstr && msgstr.Some? {
      newStr := Some(msgstr.value + text);
    } else if inPluralStr && plurals != map[] {
      var k := MaxKey(plurals);
      newPlurals := plurals[k := plurals[k] + text];
    }
  }
}
