/** Escaping for POT output and unescaping for PO input: whole-string replacements, in order. */
module PoEscape {

  const BACKSLASH: char := '\\'
  const QUOTE: char := '\"'

  /** `s.replace(old, new)` for a non-empty `old`: left to right, matches do not overlap. */
  function Replace(s: string, old': string, new': string): string
    requires old' != []
    decreases |s|
  {
    if |s| < |old'| then s
    else if s[..|old'|] == old' then new' + Replace(s[|old'|..], old', new')
    else [s[0]] + Replace(s[1..], old', new')
  }

  /** `_escape_pot`. */
  function Escape(s: string): string {
    var s1 := Replace(s, "\\", "\\\\");
    var s2 := Replace(s1, "\"", "\\\"");
    var s3 := Replace(s2, "\n", "\\n");
    var s4 := Replace(s3, "\r", "\\r");
    Replace(s4, "\t", "\\t")
  }

  /** The replacement table of `_unescape_po_string`, in its order. */
  const TABLE: seq<(string, string)> :=
    [("\\\\", "\\"), ("\\n", "\n"), ("\\t", "\t"), ("\\r", "\r"), ("\\\"", "\"")]

  function ReplaceAll(s: string, table: seq<(string, string)>): string
    requires forall i :: 0 <= i < |table| ==> table[i].0 != []
  {
    if table == [] then s
    else Replace(ReplaceAll(s, table[..|table| - 1]), table[|table| - 1].0, table[|table| - 1].1)
  }

  function Unescape(s: string): string {
    ReplaceAll(s, TABLE)
  }

  method UnescapePoString(s: string) returns (result: string)
    ensures result == Unescape(s)
  {
    result := s;
    for i := 0 to |TABLE|
      invariant result == ReplaceAll(s, TABLE[..i])
    {
      assert TABLE[..i + 1][..i] == TABLE[..i];
      result := Replace(result, TABLE[i].0, TABLE[i].1);
    }
    assert TABLE[..|TABLE|] == TABLE;
  }

  // ---------------------------------------------------------------- two-character patterns

  /** Replaces a backslash followed by `x` by `y`. */
  function Decode(s: string, x: char, y: char): string
    decreases |s|
  {
    if |s| < 2 then s
    else if s[0] == BACKSLASH && s[1] == x then [y] + Decode(s[2..], x, y)
    else [s[0]] + Decode(s[1..], x, y)
  }

  lemma {:induction false} ReplaceIsDecode(s: string, x: char, y: char)
    ensures Replace(s, [BACKSLASH, x], [y]) == Decode(s, x, y)
    decreases |s|
  {
    if |s| >= 2 {
      assert s[..2] == [s[0], s[1]];
      ReplaceIsDecode(s[1..], x, y);
      ReplaceIsDecode(s[2..], x, y);
    }
  }

  lemma UnescapeStages(s: string)
    ensures Unescape(s)
         == Decode(Decode(Decode(Decode(Decode(s, BACKSLASH, BACKSLASH), 'n', '\n'), 't', '\t'), 'r', '\r'),
                   QUOTE, QUOTE)
  {
    var t := TABLE;
    assert t[..4] == [t[0], t[1], t[2], t[3]] && t[..4][..3] == t[..3];
    assert t[..3][..2] == t[..2] && t[..2][..1] == t[..1] && t[..1][..0] == [];
    var s1 := Decode(s, BACKSLASH, BACKSLASH);
    var s2 := Decode(s1, 'n', '\n');
    var s3 := Decode(s2, 't', '\t');
    var s4 := Decode(s3, 'r', '\r');
    ReplaceIsDecode(s, BACKSLASH, BACKSLASH);
    ReplaceIsDecode(s1, 'n', '\n');
    ReplaceIsDecode(s2, 't', '\t');
    ReplaceIsDecode(s3, 'r', '\r');
    ReplaceIsDecode(s4, QUOTE, QUOTE);
    assert ReplaceAll(s, t[..1]) == s1;
    assert ReplaceAll(s, t[..2]) == s2;
    assert ReplaceAll(s, t[..3]) == s3;
    assert ReplaceAll(s, t[..4]) == s4;
  }

  // ---------------------------------------------------------------- per-character view

  /** The letter that stands for a control character or quote after a backslash. */
  function Letter(c: char): char {
    if c == '\n' then 'n' else if c == '\t' then 't' else if c == '\r' then 'r' else c
  }

  /** Every character of `coded` is written as a backslash and its letter. */
  function Encode(s: string, coded: set<char>): string {
    if s == [] then []
    else (if s[0] in coded then [BACKSLASH, Letter(s[0])] else [s[0]]) + Encode(s[1..], coded)
  }

  const CODED: set<char> := {'\n', '\t', '\r', QUOTE}

  /** One more replacement pass of `_escape_pot` codes one more character. */
  lemma {:induction false} EncodeOneMore(s: string, coded: set<char>, c: char)
    requires c !in coded && (forall k :: k in coded ==> Letter(k) != c)
    requires coded == {} || c != BACKSLASH
    ensures Replace(Encode(s, coded), [c], [BACKSLASH, Letter(c)]) == Encode(s, coded + {c})
    decreases |s|
  {
    if s != [] {
      EncodeOneMore(s[1..], coded, c);
      assert s == [s[0]] + s[1..];
      EncodeCons(s[0], s[1..], coded);
      EncodeCons(s[0], s[1..], coded + {c});
      FirstCoded(s[0], Encode(s[1..], coded), coded, c);
    }
  }

  /** The pass for c over the code of one character. */
  lemma FirstCoded(d: char, rest: string, coded: set<char>, c: char)
    requires c !in coded && (d in coded ==> Letter(d) != c && c != BACKSLASH)
    ensures var code := [BACKSLASH, Letter(c)];
            Replace((if d in coded then [BACKSLASH, Letter(d)] else [d]) + rest, [c], code)
            == (if d in coded then [BACKSLASH, Letter(d)] else if d == c then code else [d]) + Replace(rest, [c], code)
  {
    var code := [BACKSLASH, Letter(c)];
    if d in coded {
      var t := [Letter(d)] + rest;
      assert [BACKSLASH, Letter(d)] + rest == [BACKSLASH] + t;
      PassOver(BACKSLASH, t, c, code);
      PassOver(Letter(d), rest, c, code);
      var tail := Replace(rest, [c], code);
      assert [BACKSLASH] + ([Letter(d)] + tail) == [BACKSLASH, Letter(d)] + tail;
    } else {
      PassOver(d, rest, c, code);
    }
  }

  /** How a one-character pattern treats the first character. */
  lemma PassOver(d: char, rest: string, c: char, code: string)
    ensures Replace([d] + rest, [c], code) == (if d == c then code else [d]) + Replace(rest, [c], code)
  {
    var t := [d] + rest;
    assert t[..1] == [d] && t[1..] == rest;
  }

  lemma {:induction false} EncodeNothing(s: string)
    ensures Encode(s, {}) == s
  {
    if s != [] {
      EncodeNothing(s[1..]);
    }
  }

  lemma EscapeIsEncode(s: string)
    ensures Escape(s) == Encode(s, CODED + {BACKSLASH})
  {
    EncodeNothing(s);
    EncodeOneMore(s, {}, BACKSLASH);
    assert {} + {BACKSLASH} == {BACKSLASH};
    EncodeOneMore(s, {BACKSLASH}, QUOTE);
    EncodeOneMore(s, {BACKSLASH} + {QUOTE}, '\n');
    EncodeOneMore(s, {BACKSLASH} + {QUOTE} + {'\n'}, '\r');
    EncodeOneMore(s, {BACKSLASH} + {QUOTE} + {'\n'} + {'\r'}, '\t');
    assert {BACKSLASH} + {QUOTE} + {'\n'} + {'\r'} + {'\t'} == CODED + {BACKSLASH};
  }

  lemma Regroup(a: string, b: string, c: string)
    ensures a + (b + c) == (a + b) + c
  {
  }

  lemma {:induction false} EncodeAppend(a: string, b: string, coded: set<char>)
    ensures Encode(a + b, coded) == Encode(a, coded) + Encode(b, coded)
  {
    if a == [] {
      assert a + b == b;
    } else {
      EncodeAppend(a[1..], b, coded);
      assert a + b == [a[0]] + (a[1..] + b) && a == [a[0]] + a[1..];
      EncodeCons(a[0], a[1..] + b, coded);
      EncodeCons(a[0], a[1..], coded);
      Regroup(if a[0] in coded then [BACKSLASH, Letter(a[0])] else [a[0]], Encode(a[1..], coded), Encode(b, coded));
    }
  }

  /** Escaping goes character by character. */
  lemma EscapeAppend(a: string, b: string)
    ensures Escape(a + b) == Escape(a) + Escape(b)
  {
    EscapeIsEncode(a + b);
    EscapeIsEncode(a);
    EscapeIsEncode(b);
    EncodeAppend(a, b, CODED + {BACKSLASH});
  }

  lemma EncodeOne(c: char, coded: set<char>)
    ensures Encode([c], coded) == if c in coded then [BACKSLASH, Letter(c)] else [c]
  {
    assert [c][1..] == [];
    assert Encode([], coded) == [];
  }

  /** The code of every character. */
  lemma EscapeCharacter(c: char)
    ensures Escape([c]) ==
              if c == '\n' then "\\n" else if c == '\r' then "\\r" else if c == '\t' then "\\t"
              else if c == '\"' then "\\\"" else if c == '\\' then "\\\\" else [c]
  {
    EscapeIsEncode([c]);
    EncodeOne(c, CODED + {BACKSLASH});
  }

  // ---------------------------------------------------------------- decoding what was encoded

  /** The first pass of the unescape undoes exactly the coding of backslashes. */
  lemma {:induction false} DecodeBackslashes(s: string)
    ensures Decode(Encode(s, CODED + {BACKSLASH}), BACKSLASH, BACKSLASH) == Encode(s, CODED)
    decreases |s|
  {
    if s != [] {
      DecodeBackslashes(s[1..]);
      var rest := Encode(s[1..], CODED + {BACKSLASH});
      if s[0] == BACKSLASH {
        Match([BACKSLASH, BACKSLASH], rest, BACKSLASH, BACKSLASH);
      } else if s[0] in CODED {
        NoMatchPair(Letter(s[0]), rest, BACKSLASH, BACKSLASH);
      } else {
        NoMatch([s[0]], rest, BACKSLASH, BACKSLASH);
      }
    }
  }

  lemma Match(head: string, rest: string, x: char, y: char)
    requires head == [BACKSLASH, x]
    ensures Decode(head + rest, x, y) == [y] + Decode(rest, x, y)
  {
    assert (head + rest)[2..] == rest;
  }

  lemma NoMatch(head: string, rest: string, x: char, y: char)
    requires |head| == 1 && (head[0] != BACKSLASH || rest == [] || rest[0] != x)
    ensures Decode(head + rest, x, y) == head + Decode(rest, x, y)
  {
    assert (head + rest)[1..] == rest;
  }

  lemma NoMatchPair(d: char, rest: string, x: char, y: char)
    requires d != x && d != BACKSLASH
    ensures Decode([BACKSLASH, d] + rest, x, y) == [BACKSLASH, d] + Decode(rest, x, y)
  {
    var s := [BACKSLASH, d] + rest;
    assert s[1..] == [d] + rest;
    NoMatch([d], rest, x, y);
    assert s == [BACKSLASH] + ([d] + rest);
    NoMatch([BACKSLASH], [d] + rest, x, y);
    assert [BACKSLASH] + ([d] + Decode(rest, x, y)) == [BACKSLASH, d] + Decode(rest, x, y);
  }

  /** A later pass undoes the coding of its own character, and also turns a backslash that the
      original string had in front of that letter into the character. */
  lemma {:induction false} DecodeLetter(s: string, coded: set<char>, c: char)
    requires coded <= CODED && c in coded && c != QUOTE
    ensures Decode(Encode(s, coded), Letter(c), c) == Encode(Decode(s, Letter(c), c), coded - {c})
    decreases |s|
  {
    if s != [] {
      DecodeLetter(s[1..], coded, c);
      if s[0] in coded {
        DecodeCoded(s[0], s[1..], coded, c);
        assert s == [s[0]] + s[1..];
      } else if s[0] == BACKSLASH && |s| > 1 && s[1] == Letter(c) {
        DecodeLetter(s[2..], coded, c);
        DecodeRaw(s[2..], coded, c);
        assert s == [BACKSLASH, Letter(c)] + s[2..];
      } else {
        DecodeOther(s[0], s[1..], coded, c);
        assert s == [s[0]] + s[1..];
      }
    }
  }

  lemma EncodeCons(d: char, s: string, coded: set<char>)
    ensures Encode([d] + s, coded) == (if d in coded then [BACKSLASH, Letter(d)] else [d]) + Encode(s, coded)
  {
    assert ([d] + s)[1..] == s;
  }

  /** The first character is one that was coded. */
  lemma DecodeCoded(d: char, s: string, coded: set<char>, c: char)
    requires coded <= CODED && c in coded && c != QUOTE && d in coded
    requires Decode(Encode(s, coded), Letter(c), c) == Encode(Decode(s, Letter(c), c), coded - {c})
    ensures Decode(Encode([d] + s, coded), Letter(c), c) == Encode(Decode([d] + s, Letter(c), c), coded - {c})
  {
    var x, rest := Letter(c), Encode(s, coded);
    EncodeCons(d, s, coded);
    NoMatch([d], s, x, c);
    EncodeCons(d, Decode(s, x, c), coded - {c});
    if d == c {
      Match([BACKSLASH, x], rest, x, c);
    } else {
      NoMatchPair(Letter(d), rest, x, c);
    }
  }

  /** The string starts with a raw backslash and the letter. */
  lemma DecodeRaw(s: string, coded: set<char>, c: char)
    requires coded <= CODED && c in coded && c != QUOTE
    requires Decode(Encode(s, coded), Letter(c), c) == Encode(Decode(s, Letter(c), c), coded - {c})
    ensures Decode(Encode([BACKSLASH, Letter(c)] + s, coded), Letter(c), c)
         == Encode(Decode([BACKSLASH, Letter(c)] + s, Letter(c), c), coded - {c})
  {
    var x, rest := Letter(c), Encode(s, coded);
    EncodeRawPair(x, s, coded);
    Match([BACKSLASH, x], rest, x, c);
    Match([BACKSLASH, x], s, x, c);
    EncodeCons(c, Decode(s, x, c), coded - {c});
  }

  /** A backslash and a letter that are not coded stay as they are. */
  lemma EncodeRawPair(x: char, s: string, coded: set<char>)
    requires BACKSLASH !in coded && x !in coded
    ensures Encode([BACKSLASH, x] + s, coded) == [BACKSLASH, x] + Encode(s, coded)
  {
    assert [BACKSLASH, x] + s == [BACKSLASH] + ([x] + s);
    EncodeCons(BACKSLASH, [x] + s, coded);
    EncodeCons(x, s, coded);
    assert [BACKSLASH] + ([x] + Encode(s, coded)) == [BACKSLASH, x] + Encode(s, coded);
  }

  /** The first character is neither coded nor the start of a match. */
  lemma DecodeOther(d: char, s: string, coded: set<char>, c: char)
    requires coded <= CODED && c in coded && c != QUOTE && d !in coded
    requires !(d == BACKSLASH && s != [] && s[0] == Letter(c))
    requires Decode(Encode(s, coded), Letter(c), c) == Encode(Decode(s, Letter(c), c), coded - {c})
    ensures Decode(Encode([d] + s, coded), Letter(c), c) == Encode(Decode([d] + s, Letter(c), c), coded - {c})
  {
    var x := Letter(c);
    EncodeCons(d, s, coded);
    NoMatch([d], Encode(s, coded), x, c);
    NoMatch([d], s, x, c);
    EncodeCons(d, Decode(s, x, c), coded - {c});
  }

  /** The last pass undoes the coding of quotes and nothing else. */
  lemma {:induction false} DecodeQuotes(s: string)
    ensures Decode(Encode(s, {QUOTE}), QUOTE, QUOTE) == s
    decreases |s|
  {
    if s != [] {
      DecodeQuotes(s[1..]);
      var rest := Encode(s[1..], {QUOTE});
      if s[0] == QUOTE {
        Match([BACKSLASH, QUOTE], rest, QUOTE, QUOTE);
      } else {
        NoMatch([s[0]], rest, QUOTE, QUOTE);
      }
    }
  }

  /** What remains of a string after escaping and unescaping: a raw backslash in front of
      n, t or r has become the control character. */
  function RawDecode(s: string): string {
    Decode(Decode(Decode(s, 'n', '\n'), 't', '\t'), 'r', '\r')
  }

  /** The exact effect of unescape after escape, for every string. */
  lemma UnescapeEscape(s: string)
    ensures Unescape(Escape(s)) == RawDecode(s)
  {
    EscapeIsEncode(s);
    UnescapeStages(Escape(s));
    DecodeBackslashes(s);
    LaterStages(s);
  }

  const TAB_AND_LATER: set<char> := {'\t', '\r', QUOTE}
  const RETURN_AND_LATER: set<char> := {'\r', QUOTE}

  lemma CodedSets()
    ensures CODED - {'\n'} == TAB_AND_LATER
    ensures TAB_AND_LATER - {'\t'} == RETURN_AND_LATER
    ensures RETURN_AND_LATER - {'\r'} == {QUOTE}
  {
  }

  /** The passes for line feeds, tabs and carriage returns, one after the other. */
  lemma ThreePasses(s: string)
    ensures Decode(Encode(s, CODED), 'n', '\n') == Encode(Decode(s, 'n', '\n'), TAB_AND_LATER)
    ensures Decode(Encode(s, TAB_AND_LATER), 't', '\t') == Encode(Decode(s, 't', '\t'), RETURN_AND_LATER)
    ensures Decode(Encode(s, RETURN_AND_LATER), 'r', '\r') == Encode(Decode(s, 'r', '\r'), {QUOTE})
  {
    CodedSets();
    DecodeLetter(s, CODED, '\n');
    DecodeLetter(s, TAB_AND_LATER, '\t');
    DecodeLetter(s, RETURN_AND_LATER, '\r');
  }

  /** The four passes after the backslashes have been decoded. */
  lemma LaterStages(s: string)
    ensures Decode(Decode(Decode(Decode(Encode(s, CODED), 'n', '\n'), 't', '\t'), 'r', '\r'), QUOTE, QUOTE)
         == RawDecode(s)
  {
    ThreePasses(s);
    ThreePasses(Decode(s, 'n', '\n'));
    ThreePasses(Decode(Decode(s, 'n', '\n'), 't', '\t'));
    DecodeQuotes(RawDecode(s));
  }

  /** A backslash is directly followed by `x` somewhere. */
  ghost predicate Has(s: string, x: char) {
    exists i :: 0 <= i < |s| - 1 && s[i] == BACKSLASH && s[i + 1] == x
  }

  /** No backslash is directly followed by n, t or r. */
  ghost predicate Survives(s: string) {
    !Has(s, 'n') && !Has(s, 't') && !Has(s, 'r')
  }

  lemma {:induction false} DecodeShrinks(s: string, x: char, y: char)
    ensures |Decode(s, x, y)| <= |s|
    ensures Has(s, x) <==> |Decode(s, x, y)| < |s|
    ensures !Has(s, x) ==> Decode(s, x, y) == s
    decreases |s|
  {
    if |s| >= 2 {
      if s[0] == BACKSLASH && s[1] == x {
        DecodeShrinks(s[2..], x, y);
        assert Has(s, x);
      } else {
        DecodeShrinks(s[1..], x, y);
        if Has(s, x) {
          var i :| 0 <= i < |s| - 1 && s[i] == BACKSLASH && s[i + 1] == x;
          assert s[1..][i - 1] == BACKSLASH && s[1..][i] == x;
        }
        if Has(s[1..], x) {
          var i :| 0 <= i < |s[1..]| - 1 && s[1..][i] == BACKSLASH && s[1..][i + 1] == x;
          assert s[i + 1] == BACKSLASH && s[i + 2] == x;
        }
      }
    }
  }

  /** Escape and unescape give the string back exactly when no backslash in it is directly
      followed by n, t or r. */
  lemma EscapeRoundTripIff(s: string)
    ensures Unescape(Escape(s)) == s <==> Survives(s)
  {
    UnescapeEscape(s);
    var s1 := Decode(s, 'n', '\n');
    var s2 := Decode(s1, 't', '\t');
    DecodeShrinks(s, 'n', '\n');
    DecodeShrinks(s1, 't', '\t');
    DecodeShrinks(s2, 'r', '\r');
  }

  /** Unescaping changes a string exactly when a backslash in it is directly followed by another, by
      n, t or r, or by a quote. */
  lemma UnescapeFixedIff(s: string)
    ensures Unescape(s) == s <==> !Has(s, BACKSLASH) && Survives(s) && !Has(s, QUOTE)
  {
    UnescapeStages(s);
    var s1 := Decode(s, BACKSLASH, BACKSLASH);
    var s2 := Decode(s1, 'n', '\n');
    var s3 := Decode(s2, 't', '\t');
    var s4 := Decode(s3, 'r', '\r');
    DecodeShrinks(s, BACKSLASH, BACKSLASH);
    DecodeShrinks(s1, 'n', '\n');
    DecodeShrinks(s2, 't', '\t');
    DecodeShrinks(s3, 'r', '\r');
    DecodeShrinks(s4, QUOTE, QUOTE);
  }

  /** The counterexample to octal and hex escapes: both stay as they are. */
  lemma OctalAndHexKept()
    ensures Unescape("\\101") == "\\101" && Unescape("\\x41") == "\\x41"
  {
    UnescapeFixedIff("\\101");
    UnescapeFixedIff("\\x41");
  }

  // ---------------------------------------------------------------- shape of the results

  lemma HasCons(d: char, t: string, x: char)
    ensures Has([d] + t, x) <==> (d == BACKSLASH && t != [] && t[0] == x) || Has(t, x)
  {
    var s := [d] + t;
    if Has(t, x) {
      var i :| 0 <= i < |t| - 1 && t[i] == BACKSLASH && t[i + 1] == x;
      assert s[i + 1] == BACKSLASH && s[i + 2] == x;
    }
    if Has(s, x) {
      var i :| 0 <= i < |s| - 1 && s[i] == BACKSLASH && s[i + 1] == x;
      assert i > 0 ==> t[i - 1] == BACKSLASH && t[i] == x;
    }
    if d == BACKSLASH && t != [] && t[0] == x {
      assert s[0] == BACKSLASH && s[1] == x;
    }
  }

  /** A decoding pass leaves no occurrence of its own pattern and creates none of another. */
  lemma {:induction false} DecodeCleans(s: string, x: char, y: char, z: char)
    requires y != BACKSLASH && y != z && (x == z || !Has(s, z))
    ensures !Has(Decode(s, x, y), z)
    ensures s != [] ==> Decode(s, x, y) != [] && Decode(s, x, y)[0] in {s[0], y}
    decreases |s|
  {
    if |s| >= 2 {
      assert s == [s[0]] + s[1..] && s[1..] == [s[1]] + s[2..];
      HasCons(s[0], s[1..], z);
      HasCons(s[1], s[2..], z);
      if s[0] == BACKSLASH && s[1] == x {
        DecodeCleans(s[2..], x, y, z);
        HasCons(y, Decode(s[2..], x, y), z);
      } else {
        DecodeCleans(s[1..], x, y, z);
        HasCons(s[0], Decode(s[1..], x, y), z);
      }
    }
  }

  /** What comes out of escape and unescape always survives another round. */
  lemma RawDecodeSurvives(s: string)
    ensures Survives(RawDecode(s))
  {
    var s1 := Decode(s, 'n', '\n');
    var s2 := Decode(s1, 't', '\t');
    DecodeCleans(s, 'n', '\n', 'n');
    DecodeCleans(s1, 't', '\t', 'n');
    DecodeCleans(s1, 't', '\t', 't');
    DecodeCleans(s2, 'r', '\r', 'n');
    DecodeCleans(s2, 'r', '\r', 't');
    DecodeCleans(s2, 'r', '\r', 'r');
  }

  lemma RawDecodeNonEmpty(s: string)
    requires s != []
    ensures RawDecode(s) != []
  {
    DecodeNonEmpty(s, 'n', '\n');
    DecodeNonEmpty(Decode(s, 'n', '\n'), 't', '\t');
    DecodeNonEmpty(Decode(Decode(s, 'n', '\n'), 't', '\t'), 'r', '\r');
  }

  lemma DecodeNonEmpty(s: string, x: char, y: char)
    requires s != []
    ensures Decode(s, x, y) != []
  {
  }

  /** Escaping removes line feeds, carriage returns and tabs and adds only backslashes and letters. */
  lemma {:induction false} EncodeChars(s: string, coded: set<char>, c: char)
    requires c in Encode(s, coded)
    ensures c in {BACKSLASH, 'n', 't', 'r'} || (c in s && (c in coded ==> Letter(c) == c))
  {
    if s != [] && c !in {BACKSLASH, Letter(s[0])} && c in Encode(s[1..], coded) {
      EncodeChars(s[1..], coded, c);
    }
  }
}
