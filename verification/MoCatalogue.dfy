/** The binary MO decoder of `GettextLoader._load_mo`, and the layout it reads. */
module MoCatalogue {
  import opened Wrappers

  datatype Endian = Little | Big

  datatype Error = TooSmall | BadMagic | BadVersion

  /** Turns bytes into text; undecodable bytes are replaced, so it never fails. */
  type Decoder = seq<Byte> -> string

  // ---------------------------------------------------------------- words

  /** Four digits in base 256, lowest first. */
  function Digits(a: nat, b: nat, c: nat, d: nat): nat {
    a + 256 * (b + 256 * (c + 256 * d))
  }

  function WordOf(b: seq<Byte>, e: Endian): nat
    requires |b| == 4
  {
    match e
    case Little => Digits(b[0], b[1], b[2], b[3])
    case Big => Digits(b[3], b[2], b[1], b[0])
  }

  /** `struct.unpack` of the four bytes at `at`. */
  function Word(data: seq<Byte>, at: nat, e: Endian): nat
    requires at + 4 <= |data|
  {
    WordOf(data[at..at + 4], e)
  }

  const MAGIC: nat := 0x950412DE
  const SWAPPED: nat := 0xDE120495

  // ---------------------------------------------------------------- the decoder

  /** The descriptors of one string table; reading stops where the file ends. */
  function ReadTable(data: seq<Byte>, e: Endian, offset: nat, count: nat): (t: seq<(nat, nat)>)
    ensures |t| <= count
  {
    if count == 0 then []
    else
      var t := ReadTable(data, e, offset, count - 1);
      var at := offset + (count - 1) * 8;
      if |t| < count - 1 || at + 8 > |data| then t
      else t + [(Word(data, at, e), Word(data, at + 4, e))]
  }

  /** The dictionary after the first n pairs of descriptors. */
  function Collect(data: seq<Byte>, orig: seq<(nat, nat)>, trans: seq<(nat, nat)>, n: nat, decode: Decoder)
    : map<string, string>
    requires n <= |orig| && n <= |trans|
  {
    if n == 0 then map[]
    else
      var m := Collect(data, orig, trans, n - 1, decode);
      var (ol, os), (tl, ts) := orig[n - 1], trans[n - 1];
      if os + ol > |data| || ts + tl > |data| then m
      else
        var id := decode(data[os..os + ol]);
        if id == "" then m else m[id := decode(data[ts..ts + tl])]
  }

  function Min(a: nat, b: nat): nat {
    if a < b then a else b
  }

  function Load(data: seq<Byte>, decode: Decoder): Result<map<string, string>, Error> {
    if |data| < 20 then Err(TooSmall)
    else
      var magic := Word(data, 0, Little);
      if magic != MAGIC && magic != SWAPPED then Err(BadMagic)
      else
        var e := if magic == MAGIC then Little else Big;
        if Word(data, 4, e) > 1 then Err(BadVersion)
        else
          var count := Word(data, 8, e);
          var orig := ReadTable(data, e, Word(data, 12, e), count);
          var trans := ReadTable(data, e, Word(data, 16, e), count);
          Ok(Collect(data, orig, trans, Min(|orig|, |trans|), decode))
  }

  method ReadStringTable(data: seq<Byte>, e: Endian, offset: nat, count: nat) returns (entries: seq<(nat, nat)>)
    ensures entries == ReadTable(data, e, offset, count)
  {
    entries := [];
    for i := 0 to count
      invariant entries == ReadTable(data, e, offset, i) && |entries| == i
    {
      var at := offset + i * 8;
      if at + 8 > |data| {
        TableStops(data, e, offset, i, count);
        return;
      }
      entries := entries + [(Word(data, at, e), Word(data, at + 4, e))];
    }
  }

  /** Once the file has ended no further descriptor is read. */
  lemma {:induction false} TableStops(data: seq<Byte>, e: Endian, offset: nat, i: nat, count: nat)
    requires i < count && |ReadTable(data, e, offset, i)| == i && offset + i * 8 + 8 > |data|
    ensures ReadTable(data, e, offset, count) == ReadTable(data, e, offset, i)
  {
    if i + 1 < count {
      TableStops(data, e, offset, i, count - 1);
    }
  }

  /** `_load_mo` on the bytes of a file. Every slice it takes is in bounds, whatever the bytes. */
  method LoadMo(data: seq<Byte>, decode: Decoder) returns (r: Result<map<string, string>, Error>)
    ensures r == Load(data, decode)
  {
    if |data| < 20 {
      return Err(TooSmall);
    }
    var magic := Word(data, 0, Little);
    var e;
    if magic == MAGIC {
      e := Little;
    } else if magic == SWAPPED {
      e := Big;
    } else {
      return Err(BadMagic);
    }
    var version := Word(data, 4, e);
    if version !in {0, 1} {
      return Err(BadVersion);
    }
    var count := Word(data, 8, e);
    var origOffset := Word(data, 12, e);
    var transOffset := Word(data, 16, e);
    if count == 0 {
      return Ok(map[]);
    }
    var orig := ReadStringTable(data, e, origOffset, count);
    var trans := ReadStringTable(data, e, transOffset, count);
    var result := ReadMessages(data, orig, trans, decode);
    return Ok(result);
  }

  /** The three errors, told from the bytes. */
  lemma LoadErrors(data: seq<Byte>, decode: Decoder)
    ensures Load(data, decode) == Err(TooSmall) <==> |data| < 20
    ensures Load(data, decode) == Err(BadMagic) <==>
              |data| >= 20 && data[..4] != [0xDE, 0x12, 0x04, 0x95] && data[..4] != [0x95, 0x04, 0x12, 0xDE]
    ensures Load(data, decode) == Err(BadVersion) <==>
              && |data| >= 20
              && ((data[..4] == [0xDE, 0x12, 0x04, 0x95] && (data[4] > 1 || data[5..8] != [0, 0, 0]))
                  || (data[..4] == [0x95, 0x04, 0x12, 0xDE] && (data[7] > 1 || data[4..7] != [0, 0, 0])))
  {
    if |data| >= 20 {
      MagicBytes(data);
      VersionBytes(data);
    }
  }

  lemma MagicBytes(data: seq<Byte>)
    requires |data| >= 20
    ensures Word(data, 0, Little) == MAGIC <==> data[..4] == [0xDE, 0x12, 0x04, 0x95]
    ensures Word(data, 0, Little) == SWAPPED <==> data[..4] == [0x95, 0x04, 0x12, 0xDE]
  {
    var b := data[0..4];
    assert b == data[..4] == [b[0], b[1], b[2], b[3]];
  }

  lemma VersionBytes(data: seq<Byte>)
    requires |data| >= 20
    ensures Word(data, 4, Little) > 1 <==> data[4] > 1 || data[5..8] != [0, 0, 0]
    ensures Word(data, 4, Big) > 1 <==> data[7] > 1 || data[4..7] != [0, 0, 0]
  {
    var b := data[4..8];
    assert b == [data[4], data[5], data[6], data[7]];
    assert data[5..8] == [b[1], b[2], b[3]] && data[4..7] == [b[0], b[1], b[2]];
  }

  /** Both strings of a pair lie in the file. */
  predicate Readable(data: seq<Byte>, orig: (nat, nat), trans: (nat, nat)) {
    orig.1 + orig.0 <= |data| && trans.1 + trans.0 <= |data|
  }

  /** The i-th pair is readable and its id decodes to this non-empty text. */
  predicate Gives(data: seq<Byte>, orig: seq<(nat, nat)>, trans: seq<(nat, nat)>, i: nat, decode: Decoder, id: string)
    requires i < |orig| && i < |trans|
  {
    Readable(data, orig[i], trans[i]) && id != "" && decode(data[orig[i].1..orig[i].1 + orig[i].0]) == id
  }

  /** For any two tables: what is found under an id is the translation of the last pair that gives it. */
  lemma {:induction false} LastReadableWins(data: seq<Byte>, orig: seq<(nat, nat)>, trans: seq<(nat, nat)>, n: nat,
                                            decode: Decoder, id: string) returns (i: nat)
    requires n <= |orig| && n <= |trans| && id in Collect(data, orig, trans, n, decode)
    ensures i < n && Gives(data, orig, trans, i, decode, id)
    ensures forall j: nat :: i < j < n ==> !Gives(data, orig, trans, j, decode, id)
    ensures Collect(data, orig, trans, n, decode)[id] == decode(data[trans[i].1..trans[i].1 + trans[i].0])
  {
    i := n - 1;
    if !Gives(data, orig, trans, n - 1, decode, id) {
      i := LastReadableWins(data, orig, trans, n - 1, decode, id);
    }
  }

  /** And whatever id a pair gives is found: a pair that is not readable stops nothing. */
  lemma {:induction false} ReadableFound(data: seq<Byte>, orig: seq<(nat, nat)>, trans: seq<(nat, nat)>, n: nat,
                                         decode: Decoder, id: string, i: nat)
    requires i < n <= |orig| && n <= |trans| && Gives(data, orig, trans, i, decode, id)
    ensures id in Collect(data, orig, trans, n, decode)
  {
    if i < n - 1 {
      ReadableFound(data, orig, trans, n - 1, decode, id, i);
    }
  }

  /** A table is read up to its length or to the end of the file, whichever comes first. */
  lemma {:induction false} TableMeans(data: seq<Byte>, e: Endian, offset: nat, count: nat)
    ensures var t := ReadTable(data, e, offset, count);
            && (forall i: nat :: i < |t| ==>
                  && offset + i * 8 + 8 <= |data|
                  && t[i] == (Word(data, offset + i * 8, e), Word(data, offset + i * 8 + 4, e)))
            && (|t| < count ==> offset + |t| * 8 + 8 > |data|)
  {
    if count > 0 {
      TableMeans(data, e, offset, count - 1);
    }
  }

  /** The loop over the pairs of descriptors; pairs that point outside the file are skipped. */
  method ReadMessages(data: seq<Byte>, orig: seq<(nat, nat)>, trans: seq<(nat, nat)>, decode: Decoder)
    returns (result: map<string, string>)
    ensures result == Collect(data, orig, trans, Min(|orig|, |trans|), decode)
  {
    result := map[];
    for i := 0 to Min(|orig|, |trans|)
      invariant result == Collect(data, orig, trans, i, decode)
    {
      var (origLen, origStart) := orig[i];
      var (transLen, transStart) := trans[i];
      if origStart + origLen > |data| || transStart + transLen > |data| {
        continue;
      }
      var msgid := decode(data[origStart..origStart + origLen]);
      var msgstr := decode(data[transStart..transStart + transLen]);
      if msgid != "" {
        result := result[msgid := msgstr];
      }
    }
  }

  // ---------------------------------------------------------------- the layout

  datatype Message = Message(id: seq<Byte>, str: seq<Byte>)

  /** The descriptor at `at` points at exactly the bytes `s`. */
  ghost predicate Points(data: seq<Byte>, e: Endian, at: nat, s: seq<Byte>) {
    && at + 8 <= |data|
    && Word(data, at, e) == |s|
    && Word(data, at + 4, e) + |s| <= |data|
    && data[Word(data, at + 4, e)..Word(data, at + 4, e) + |s|] == s
  }

  /** A table at `offset` whose i-th descriptor points at the i-th string. */
  ghost predicate Table(data: seq<Byte>, e: Endian, offset: nat, strings: seq<seq<Byte>>) {
    forall i :: 0 <= i < |strings| ==> Points(data, e, offset + i * 8, strings[i])
  }

  /** `data` is laid out as an MO file of byte order `e` holding the messages of `cat` in order. */
  ghost predicate Laid(data: seq<Byte>, e: Endian, cat: seq<Message>) {
    && |data| >= 20
    && Word(data, 0, e) == MAGIC && Word(data, 4, e) <= 1 && Word(data, 8, e) == |cat|
    && Table(data, e, Word(data, 12, e), Ids(cat))
    && Table(data, e, Word(data, 16, e), Strs(cat))
  }

  /** The last translation of each non-empty decoded id. */
  function LastWins(cat: seq<Message>, decode: Decoder): map<string, string> {
    if cat == [] then map[]
    else
      var m, last := LastWins(cat[..|cat| - 1], decode), cat[|cat| - 1];
      if decode(last.id) == "" then m else m[decode(last.id) := decode(last.str)]
  }

  lemma {:induction false} TableComplete(data: seq<Byte>, e: Endian, offset: nat, count: nat)
    requires forall i :: 0 <= i < count ==> offset + i * 8 + 8 <= |data|
    ensures var t := ReadTable(data, e, offset, count);
            && |t| == count
            && forall i :: 0 <= i < count ==>
                 offset + i * 8 + 8 <= |data|
                 && t[i] == (Word(data, offset + i * 8, e), Word(data, offset + i * 8 + 4, e))
  {
    if count > 0 {
      TableComplete(data, e, offset, count - 1);
      assert offset + (count - 1) * 8 + 8 <= |data|;
    }
  }

  lemma {:induction false} CollectIsLastWins(data: seq<Byte>, orig: seq<(nat, nat)>, trans: seq<(nat, nat)>,
                                             cat: seq<Message>, n: nat, decode: Decoder)
    requires n <= |cat| && |orig| == |trans| == |cat|
    requires forall i :: 0 <= i < |cat| ==>
               && orig[i].1 + orig[i].0 <= |data| && data[orig[i].1..orig[i].1 + orig[i].0] == cat[i].id
               && trans[i].1 + trans[i].0 <= |data| && data[trans[i].1..trans[i].1 + trans[i].0] == cat[i].str
    ensures Collect(data, orig, trans, n, decode) == LastWins(cat[..n], decode)
  {
    if n > 0 {
      CollectIsLastWins(data, orig, trans, cat, n - 1, decode);
      assert cat[..n][..n - 1] == cat[..n - 1];
    }
  }

  /** The first four bytes tell the byte order. */
  lemma MagicTellsOrder(b: seq<Byte>)
    requires |b| == 4
    ensures WordOf(b, Big) == MAGIC <==> WordOf(b, Little) == SWAPPED
  {
  }

  lemma LaidHeader(data: seq<Byte>, e: Endian, cat: seq<Message>, decode: Decoder)
    requires Laid(data, e, cat)
    ensures var orig := ReadTable(data, e, Word(data, 12, e), |cat|);
            var trans := ReadTable(data, e, Word(data, 16, e), |cat|);
            Load(data, decode) == Ok(Collect(data, orig, trans, Min(|orig|, |trans|), decode))
  {
    MagicTellsOrder(data[0..4]);
  }

  /** Decoding a file laid out in either byte order gives the last-wins map of its messages. */
  lemma LoadsCatalogue(data: seq<Byte>, e: Endian, cat: seq<Message>, decode: Decoder)
    requires Laid(data, e, cat)
    ensures Load(data, decode) == Ok(LastWins(cat, decode))
  {
    LaidHeader(data, e, cat, decode);
    CollectsCatalogue(data, e, cat, decode);
  }

  lemma CollectsCatalogue(data: seq<Byte>, e: Endian, cat: seq<Message>, decode: Decoder)
    requires Laid(data, e, cat)
    ensures var orig := ReadTable(data, e, Word(data, 12, e), |cat|);
            var trans := ReadTable(data, e, Word(data, 16, e), |cat|);
            Collect(data, orig, trans, Min(|orig|, |trans|), decode) == LastWins(cat, decode)
  {
    var o, t := Word(data, 12, e), Word(data, 16, e);
    PointedTable(data, e, o, Ids(cat));
    PointedTable(data, e, t, Strs(cat));
    var orig, trans := ReadTable(data, e, o, |cat|), ReadTable(data, e, t, |cat|);
    forall i | 0 <= i < |cat|
      ensures orig[i].1 + orig[i].0 <= |data| && data[orig[i].1..orig[i].1 + orig[i].0] == cat[i].id
      ensures trans[i].1 + trans[i].0 <= |data| && data[trans[i].1..trans[i].1 + trans[i].0] == cat[i].str
    {
      assert Ids(cat)[i] == cat[i].id && Strs(cat)[i] == cat[i].str;
    }
    CollectIsLastWins(data, orig, trans, cat, |cat|, decode);
    assert cat[..|cat|] == cat;
  }

  function Ids(cat: seq<Message>): (s: seq<seq<Byte>>)
    ensures |s| == |cat| && forall i :: 0 <= i < |cat| ==> s[i] == cat[i].id
  {
    seq(|cat|, i requires 0 <= i < |cat| => cat[i].id)
  }

  function Strs(cat: seq<Message>): (s: seq<seq<Byte>>)
    ensures |s| == |cat| && forall i :: 0 <= i < |cat| ==> s[i] == cat[i].str
  {
    seq(|cat|, i requires 0 <= i < |cat| => cat[i].str)
  }

  /** A table whose descriptors point at given strings is read completely. */
  lemma PointedTable(data: seq<Byte>, e: Endian, offset: nat, strings: seq<seq<Byte>>)
    requires Table(data, e, offset, strings)
    ensures var t := ReadTable(data, e, offset, |strings|);
            && |t| == |strings|
            && forall i :: 0 <= i < |strings| ==>
                 t[i].1 + t[i].0 <= |data| && data[t[i].1..t[i].1 + t[i].0] == strings[i]
  {
    forall i | 0 <= i < |strings|
      ensures offset + i * 8 + 8 <= |data|
    {
      assert Points(data, e, offset + i * 8, strings[i]);
    }
    TableComplete(data, e, offset, |strings|);
    forall i | 0 <= i < |strings|
      ensures var t := ReadTable(data, e, offset, |strings|);
              t[i].1 + t[i].0 <= |data| && data[t[i].1..t[i].1 + t[i].0] == strings[i]
    {
      assert Points(data, e, offset + i * 8, strings[i]);
    }
  }

  /** The two byte orders of one catalogue decode to the same dictionary. */
  lemma ByteOrderIrrelevant(little: seq<Byte>, big: seq<Byte>, cat: seq<Message>, decode: Decoder)
    requires Laid(little, Little, cat) && Laid(big, Big, cat)
    ensures Load(little, decode) == Load(big, decode)
  {
    LoadsCatalogue(little, Little, cat, decode);
    LoadsCatalogue(big, Big, cat, decode);
  }

  // ---------------------------------------------------------------- writing the layout

  /** The low 32 bits of n. */
  function BytesOf(n: nat, e: Endian): (b: seq<Byte>)
    ensures |b| == 4
  {
    var n1 := n / 256;
    var n2 := n1 / 256;
    var n3 := n2 / 256;
    if e == Little then [n % 256, n1 % 256, n2 % 256, n3 % 256] else [n3 % 256, n2 % 256, n1 % 256, n % 256]
  }

  lemma WordRoundTrip(n: nat, e: Endian)
    requires n < 0x1_0000_0000
    ensures WordOf(BytesOf(n, e), e) == n
  {
  }

  /** A sequence of four-byte words. */
  function Words(ns: seq<nat>, e: Endian): (b: seq<Byte>)
    ensures |b| == 4 * |ns|
  {
    if ns == [] then [] else Words(ns[..|ns| - 1], e) + BytesOf(ns[|ns| - 1], e)
  }

  lemma {:induction false} WordsAt(ns: seq<nat>, e: Endian, k: nat, at: nat)
    requires k < |ns| && at == 4 * k && ns[k] < 0x1_0000_0000
    ensures Word(Words(ns, e), at, e) == ns[k]
  {
    var n := |ns| - 1;
    var front, last := Words(ns[..n], e), BytesOf(ns[n], e);
    if k < n {
      WordsAt(ns[..n], e, k, at);
      WordInFront(front, last, e, at);
    } else {
      WordRoundTrip(ns[n], e);
      assert (front + last)[at..at + 4] == last;
    }
  }

  lemma WordInFront(front: seq<Byte>, last: seq<Byte>, e: Endian, at: nat)
    requires at + 4 <= |front|
    ensures Word(front + last, at, e) == Word(front, at, e)
  {
    assert (front + last)[at..at + 4] == front[at..at + 4];
  }

  /** The first n strings, each followed by a NUL byte. */
  function Pool(all: seq<seq<Byte>>, n: nat): seq<Byte>
    requires n <= |all|
  {
    if n == 0 then [] else Pool(all, n - 1) + all[n - 1] + [0]
  }

  lemma {:induction false} PoolAt(all: seq<seq<Byte>>, n: nat, k: nat)
    requires k < n <= |all|
    ensures |Pool(all, k)| + |all[k]| <= |Pool(all, n)|
    ensures Pool(all, n)[|Pool(all, k)|..|Pool(all, k)| + |all[k]|] == all[k]
  {
    if k < n - 1 {
      PoolAt(all, n - 1, k);
    }
  }

  /** The descriptor words of the first n strings of a pool that starts at `base`. */
  function Descriptors(all: seq<seq<Byte>>, n: nat, base: nat): (d: seq<nat>)
    requires n <= |all|
    ensures |d| == 2 * n
  {
    if n == 0 then [] else Descriptors(all, n - 1, base) + [|all[n - 1]|, base + |Pool(all, n - 1)|]
  }

  lemma {:induction false} DescriptorAt(all: seq<seq<Byte>>, n: nat, base: nat, k: nat)
    requires k < n <= |all|
    ensures Descriptors(all, n, base)[2 * k] == |all[k]|
    ensures Descriptors(all, n, base)[2 * k + 1] == base + |Pool(all, k)|
  {
    if k < n - 1 {
      DescriptorAt(all, n - 1, base, k);
    }
  }

  lemma {:induction false} DescriptorsSmall(all: seq<seq<Byte>>, n: nat, base: nat)
    requires n <= |all| && base + |Pool(all, n)| < 0x1_0000_0000
    ensures forall i :: 0 <= i < 2 * n ==> Descriptors(all, n, base)[i] < 0x1_0000_0000
  {
    if n > 0 {
      DescriptorsSmall(all, n - 1, base);
    }
  }

  /** All strings of a catalogue in file order: the ids, then the translations. */
  function Strings(cat: seq<Message>): (s: seq<seq<Byte>>)
    ensures |s| == 2 * |cat|
  {
    Ids(cat) + Strs(cat)
  }

  /** The size of the file. */
  function FileSize(cat: seq<Message>): nat {
    28 + 16 * |cat| + |Pool(Strings(cat), 2 * |cat|)|
  }

  /** The header; there is no hash table. */
  function Header(n: nat, base: nat): (h: seq<nat>)
    ensures |h| == 7
  {
    [MAGIC, 0, n, 28, 28 + 8 * n, 0, base]
  }

  /** Seven header words, then both descriptor tables. */
  function Layout(cat: seq<Message>): (ns: seq<nat>)
    ensures |ns| == 7 + 4 * |cat|
  {
    Header(|cat|, 28 + 16 * |cat|) + Descriptors(Strings(cat), 2 * |cat|, 28 + 16 * |cat|)
  }

  lemma SmallConcat(h: seq<nat>, d: seq<nat>)
    requires forall i :: 0 <= i < |h| ==> h[i] < 0x1_0000_0000
    requires forall i :: 0 <= i < |d| ==> d[i] < 0x1_0000_0000
    ensures forall i :: 0 <= i < |h + d| ==> (h + d)[i] < 0x1_0000_0000
  {
  }

  lemma LayoutSmall(cat: seq<Message>)
    requires FileSize(cat) < 0x1_0000_0000
    ensures forall i :: 0 <= i < |Layout(cat)| ==> Layout(cat)[i] < 0x1_0000_0000
  {
    var base := 28 + 16 * |cat|;
    DescriptorsSmall(Strings(cat), 2 * |cat|, base);
    SmallConcat(Header(|cat|, base), Descriptors(Strings(cat), 2 * |cat|, base));
  }

  /** An MO file. */
  function Encode(cat: seq<Message>, e: Endian): seq<Byte> {
    Words(Layout(cat), e) + Pool(Strings(cat), 2 * |cat|)
  }

  /** A word of the file's first part. */
  lemma WordInFile(ns: seq<nat>, e: Endian, p: seq<Byte>, k: nat, at: nat)
    requires k < |ns| && at == 4 * k && ns[k] < 0x1_0000_0000
    ensures at + 4 <= |Words(ns, e) + p| && Word(Words(ns, e) + p, at, e) == ns[k]
  {
    WordsAt(ns, e, k, at);
    WordInFront(Words(ns, e), p, e, at);
  }

  lemma EncodedWord(cat: seq<Message>, e: Endian, k: nat, at: nat)
    requires FileSize(cat) < 0x1_0000_0000 && k < |Layout(cat)| && at == 4 * k
    ensures at + 4 <= |Encode(cat, e)| && Word(Encode(cat, e), at, e) == Layout(cat)[k]
  {
    LayoutSmall(cat);
    WordInFile(Layout(cat), e, Pool(Strings(cat), 2 * |cat|), k, at);
  }

  lemma PointsBy(data: seq<Byte>, e: Endian, at: nat, s: seq<Byte>, off: nat)
    requires at + 8 <= |data| && Word(data, at, e) == |s| && Word(data, at + 4, e) == off
    requires off + |s| <= |data| && data[off..off + |s|] == s
    ensures Points(data, e, at, s)
  {
  }

  /** A string of the pool behind the words. */
  lemma StringBehind(w: seq<Byte>, all: seq<seq<Byte>>, n: nat, k: nat, off: nat)
    requires k < n <= |all| && off == |w| + |Pool(all, k)|
    ensures off + |all[k]| <= |w + Pool(all, n)| && (w + Pool(all, n))[off..off + |all[k]|] == all[k]
  {
    PoolAt(all, n, k);
    SliceBehind(w, Pool(all, n), |Pool(all, k)|, all[k], off);
  }

  lemma SliceBehind(w: seq<Byte>, p: seq<Byte>, at: nat, s: seq<Byte>, off: nat)
    requires at + |s| <= |p| && p[at..at + |s|] == s && off == |w| + at
    ensures off + |s| <= |w + p| && (w + p)[off..off + |s|] == s
  {
    assert (w + p)[off..off + |s|] == p[at..at + |s|];
  }

  /** The bytes of the k-th string in the file. */
  lemma StringInFile(cat: seq<Message>, e: Endian, k: nat, off: nat, s: seq<Byte>)
    requires k < 2 * |cat| && off == 28 + 16 * |cat| + |Pool(Strings(cat), k)| && s == Strings(cat)[k]
    ensures off + |s| <= |Encode(cat, e)| && Encode(cat, e)[off..off + |s|] == s
  {
    StringBehind(Words(Layout(cat), e), Strings(cat), 2 * |cat|, k, off);
  }

  /** The two words of the k-th descriptor. */
  lemma DescriptorWords(cat: seq<Message>, e: Endian, k: nat, at: nat)
    requires FileSize(cat) < 0x1_0000_0000 && k < 2 * |cat| && at == 28 + 8 * k
    ensures at + 8 <= |Encode(cat, e)|
    ensures Word(Encode(cat, e), at, e) == |Strings(cat)[k]|
    ensures Word(Encode(cat, e), at + 4, e) == 28 + 16 * |cat| + |Pool(Strings(cat), k)|
  {
    var i := 7 + 2 * k;
    LayoutAt(cat, k, i);
    TwoEncodedWords(cat, e, i, at);
  }

  lemma TwoEncodedWords(cat: seq<Message>, e: Endian, i: nat, at: nat)
    requires FileSize(cat) < 0x1_0000_0000 && i + 1 < |Layout(cat)| && at == 4 * i
    ensures at + 8 <= |Encode(cat, e)|
    ensures Word(Encode(cat, e), at, e) == Layout(cat)[i] && Word(Encode(cat, e), at + 4, e) == Layout(cat)[i + 1]
  {
    EncodedWord(cat, e, i, at);
    EncodedWord(cat, e, i + 1, at + 4);
  }

  lemma LayoutAt(cat: seq<Message>, k: nat, i: nat)
    requires k < 2 * |cat| && i == 7 + 2 * k
    ensures i + 1 < |Layout(cat)|
    ensures Layout(cat)[i] == |Strings(cat)[k]|
    ensures Layout(cat)[i + 1] == 28 + 16 * |cat| + |Pool(Strings(cat), k)|
  {
    var base := 28 + 16 * |cat|;
    DescriptorAt(Strings(cat), 2 * |cat|, base, k);
    PairAt(Header(|cat|, base), Descriptors(Strings(cat), 2 * |cat|, base), 2 * k, i);
  }

  lemma PairAt(h: seq<nat>, d: seq<nat>, j: nat, i: nat)
    requires j + 1 < |d| && i == |h| + j
    ensures (h + d)[i] == d[j] && (h + d)[i + 1] == d[j + 1]
  {
  }

  /** Every string's descriptor points at its bytes. */
  lemma DescriptorPoints(cat: seq<Message>, e: Endian, k: nat)
    requires FileSize(cat) < 0x1_0000_0000 && k < 2 * |cat|
    ensures Points(Encode(cat, e), e, 28 + 8 * k, Strings(cat)[k])
  {
    var off := 28 + 16 * |cat| + |Pool(Strings(cat), k)|;
    DescriptorWords(cat, e, k, 28 + 8 * k);
    StringInFile(cat, e, k, off, Strings(cat)[k]);
    PointsBy(Encode(cat, e), e, 28 + 8 * k, Strings(cat)[k], off);
  }

  /** The descriptors of consecutive strings form a table. */
  lemma DescriptorTable(cat: seq<Message>, e: Endian, first: nat, offset: nat, strings: seq<seq<Byte>>)
    requires FileSize(cat) < 0x1_0000_0000
    requires first + |strings| <= 2 * |cat| && offset == 28 + 8 * first
    requires strings == Strings(cat)[first..first + |strings|]
    ensures Table(Encode(cat, e), e, offset, strings)
  {
    forall i | 0 <= i < |strings|
      ensures Points(Encode(cat, e), e, offset + i * 8, strings[i])
    {
      DescriptorPoints(cat, e, first + i);
      assert 28 + 8 * (first + i) == offset + i * 8;
    }
  }

  lemma StringHalves(cat: seq<Message>)
    ensures Strings(cat)[0..|Ids(cat)|] == Ids(cat)
    ensures Strings(cat)[|cat|..|cat| + |Strs(cat)|] == Strs(cat)
  {
  }

  lemma IdTable(cat: seq<Message>, e: Endian)
    requires FileSize(cat) < 0x1_0000_0000
    ensures Table(Encode(cat, e), e, 28, Ids(cat))
  {
    StringHalves(cat);
    DescriptorTable(cat, e, 0, 28, Ids(cat));
  }

  lemma StringTable(cat: seq<Message>, e: Endian)
    requires FileSize(cat) < 0x1_0000_0000
    ensures Table(Encode(cat, e), e, 28 + 8 * |cat|, Strs(cat))
  {
    var n, strs := |cat|, Strs(cat);
    assert strs == Strings(cat)[n..n + |strs|] by { StringHalves(cat); }
    DescriptorTable(cat, e, n, 28 + 8 * n, strs);
  }

  lemma HeaderWords(cat: seq<Message>, e: Endian)
    requires FileSize(cat) < 0x1_0000_0000
    ensures |Encode(cat, e)| >= 28
    ensures Word(Encode(cat, e), 0, e) == MAGIC && Word(Encode(cat, e), 4, e) == 0
    ensures Word(Encode(cat, e), 8, e) == |cat|
    ensures Word(Encode(cat, e), 12, e) == 28 && Word(Encode(cat, e), 16, e) == 28 + 8 * |cat|
  {
    EncodedWord(cat, e, 0, 0);
    EncodedWord(cat, e, 1, 4);
    EncodedWord(cat, e, 2, 8);
    EncodedWord(cat, e, 3, 12);
    EncodedWord(cat, e, 4, 16);
  }

  /** The written file has the layout, in either byte order. */
  lemma EncodeIsLaid(cat: seq<Message>, e: Endian)
    requires FileSize(cat) < 0x1_0000_0000
    ensures Laid(Encode(cat, e), e, cat)
  {
    HeaderWords(cat, e);
    IdTable(cat, e);
    StringTable(cat, e);
    LaidBy(Encode(cat, e), e, cat, 28, 28 + 8 * |cat|);
  }

  lemma LaidBy(data: seq<Byte>, e: Endian, cat: seq<Message>, ids: nat, strs: nat)
    requires |data| >= 20 && Word(data, 0, e) == MAGIC && Word(data, 4, e) == 0 && Word(data, 8, e) == |cat|
    requires Word(data, 12, e) == ids && Word(data, 16, e) == strs
    requires Table(data, e, ids, Ids(cat)) && Table(data, e, strs, Strs(cat))
    ensures Laid(data, e, cat)
  {
  }

  /** Writing a catalogue and loading it gives the last translation of each non-empty id. */
  lemma MoRoundTrip(cat: seq<Message>, e: Endian, decode: Decoder)
    requires FileSize(cat) < 0x1_0000_0000
    ensures Load(Encode(cat, e), decode) == Ok(LastWins(cat, decode))
  {
    EncodeIsLaid(cat, e);
    LoadsCatalogue(Encode(cat, e), e, cat, decode);
  }
}
