/** Printing tokens as a flattened device tree, and that scanning reads back what was printed. */
module FdtPrinter {
  import opened Abi
  import opened FdtBytes
  import opened Fdt

  // ---------------------------------------------------------------- the strings block

  /** Names one after the other, each ended by a NUL. */
  function Join(names: seq<Bytes>): Bytes {
    if names == [] then [] else names[0] + [0] + Join(names[1..])
  }

  /** Where a name starts: its first occurrence, or the end. */
  function NameOffset(names: seq<Bytes>, name: Bytes): nat {
    if names == [] || names[0] == name then 0 else |names[0]| + 1 + NameOffset(names[1..], name)
  }

  lemma {:induction false} JoinAppend(names: seq<Bytes>, name: Bytes)
    ensures Join(names + [name]) == Join(names) + name + [0]
  {
    if names != [] {
      assert (names + [name])[1..] == names[1..] + [name];
      JoinAppend(names[1..], name);
    } else {
      assert ([] + [name])[1..] == [];
    }
  }

  /** Adding names at the end moves no earlier name. */
  lemma {:induction false} OffsetStable(names: seq<Bytes>, more: seq<Bytes>, name: Bytes)
    requires name in names
    ensures NameOffset(names + more, name) == NameOffset(names, name)
  {
    assert (names + more)[1..] == names[1..] + more;
    if names[0] != name {
      OffsetStable(names[1..], more, name);
    }
  }

  lemma {:induction false} NewOffset(names: seq<Bytes>, name: Bytes)
    requires name !in names
    ensures NameOffset(names + [name], name) == |Join(names)|
  {
    if names != [] {
      assert (names + [name])[1..] == names[1..] + [name];
      NewOffset(names[1..], name);
    } else {
      assert ([] + [name])[1..] == [];
    }
  }

  ghost predicate AllNoNul(names: seq<Bytes>) {
    forall i :: 0 <= i < |names| ==> NoNul(names[i])
  }

  /** At its offset the table holds the name and a NUL. */
  lemma {:induction false} NameIsThere(names: seq<Bytes>, name: Bytes)
    requires name in names
    ensures var s, off := Join(names), NameOffset(names, name);
            off + |name| < |s| && s[off..off + |name|] == name && s[off + |name|] == 0
  {
    var s, off := Join(names), NameOffset(names, name);
    var head := names[0] + [0];
    assert s == head + Join(names[1..]);
    if names[0] != name {
      NameIsThere(names[1..], name);
      var rest, at := Join(names[1..]), NameOffset(names[1..], name);
      assert s[off..off + |name|] == rest[at..at + |name|];
      assert s[off + |name|] == rest[at + |name|];
    }
  }

  // ---------------------------------------------------------------- the structure block

  function AddName(names: seq<Bytes>, t: Token): seq<Bytes> {
    if t.Prop? && t.name !in names then names + [t.name] else names
  }

  /** Property names in order of first use. */
  function Table(ts: seq<Token>): seq<Bytes> {
    if ts == [] then [] else AddName(Table(ts[..|ts| - 1]), ts[|ts| - 1])
  }

  function NameBlock(name: Bytes): Bytes {
    name + ([0] + Pad(|name| + 1))
  }

  function ValueBlock(value: Bytes): Bytes {
    value + Pad(|value|)
  }

  function PropBlock(names: seq<Bytes>, name: Bytes, value: Bytes): Bytes {
    Be(4, |value|) + (Be(4, NameOffset(names, name)) + ValueBlock(value))
  }

  function Encode(names: seq<Bytes>, t: Token): Bytes {
    match t
    case Begin(name) => Be(4, BEGIN_NODE) + NameBlock(name)
    case EndNode => Be(4, END_NODE)
    case Prop(name, value) => Be(4, PROP) + PropBlock(names, name, value)
    case Nop => Be(4, NOP)
    case Fin => Be(4, END)
  }

  lemma FourBytes(v: byte)
    ensures Be(4, v) == [0, 0, 0, v]
  {
    assert Be(1, 0) == [0] && Be(2, 0) == [0, 0] && Be(3, 0) == [0, 0, 0];
  }

  /** Every token starts with its big-endian number: 1 opens a node, 2 closes it, 3 is a property, 9 is the end. */
  lemma WireTokens(names: seq<Bytes>, t: Token)
    ensures var number: byte := match t
                                case Begin(_) => 1
                                case EndNode => 2
                                case Prop(_, _) => 3
                                case Nop => 4
                                case Fin => 9;
            [0, 0, 0, number] <= Encode(names, t)
  {
    hide Be, NameBlock, PropBlock;
    FourBytes(1);
    FourBytes(2);
    FourBytes(3);
    FourBytes(4);
    FourBytes(9);
  }

  function EncodeAll(names: seq<Bytes>, ts: seq<Token>): Bytes {
    if ts == [] then [] else Encode(names, ts[0]) + EncodeAll(names, ts[1..])
  }

  lemma {:induction false} EncodeAppend(names: seq<Bytes>, ts: seq<Token>, t: Token)
    ensures EncodeAll(names, ts + [t]) == EncodeAll(names, ts) + Encode(names, t)
  {
    hide Encode;
    if ts != [] {
      assert (ts + [t])[1..] == ts[1..] + [t];
      EncodeAppend(names, ts[1..], t);
    } else {
      assert ([] + [t])[1..] == [];
    }
  }

  ghost predicate Named(names: seq<Bytes>, ts: seq<Token>) {
    forall i :: 0 <= i < |ts| && ts[i].Prop? ==> ts[i].name in names
  }

  lemma {:induction false} EncodeStable(names: seq<Bytes>, more: seq<Bytes>, ts: seq<Token>)
    requires Named(names, ts)
    ensures EncodeAll(names + more, ts) == EncodeAll(names, ts)
  {
    if ts != [] {
      if ts[0].Prop? {
        OffsetStable(names, more, ts[0].name);
      }
      assert Named(names, ts[1..]);
      EncodeStable(names, more, ts[1..]);
    }
  }

  lemma {:induction false} TableNames(ts: seq<Token>)
    ensures Named(Table(ts), ts)
    ensures forall n :: n in Table(ts) ==> exists i :: 0 <= i < |ts| && ts[i].Prop? && ts[i].name == n
  {
    if ts != [] {
      var init, t := ts[..|ts| - 1], ts[|ts| - 1];
      TableNames(init);
      var names := Table(ts);
      forall i | 0 <= i < |ts| && ts[i].Prop?
        ensures ts[i].name in names
      {
        if i < |init| {
          assert init[i].name in Table(init);
        }
      }
      forall n | n in names
        ensures exists i :: 0 <= i < |ts| && ts[i].Prop? && ts[i].name == n
      {
        if n in Table(init) {
          var i :| 0 <= i < |init| && init[i].Prop? && init[i].name == n;
          assert ts[i] == init[i];
        }
      }
    }
  }

  lemma EncodeWhole(names: seq<Bytes>, t: Token)
    ensures |Encode(names, t)| % 4 == 0 && |Encode(names, t)| >= 4
  {
    hide Be, Pad;
    match t
    case Begin(name) => PadWhole(|name| + 1);
    case Prop(name, value) => PadWhole(|value|);
    case _ =>
  }

  lemma PadWhole(n: nat)
    ensures (n + |Pad(n)|) % 4 == 0
  {
  }

  // ---------------------------------------------------------------- the whole blob

  function RsvBytes(rsv: seq<(nat, nat)>): Bytes {
    if rsv == [] then [] else Be(8, rsv[0].0) + Be(8, rsv[0].1) + RsvBytes(rsv[1..])
  }

  /** Words one after the other. */
  function WordBytes(ws: seq<nat>): (b: Bytes)
    ensures |b| == 4 * |ws|
  {
    if ws == [] then [] else Be(4, ws[0]) + WordBytes(ws[1..])
  }

  /** The header versions, and whether the structure block ends with an END token. */
  datatype Format = Format(version: nat, lastComp: nat, terminate: bool)

  const STANDARD := Format(17, 16, true)

  function HeaderWords(f: Format, rsvLen: nat, structLen: nat, stringsLen: nat): seq<nat> {
    [ 0xd00d_feed, 40 + rsvLen + structLen + stringsLen, 40 + rsvLen, 40 + rsvLen + structLen, 40,
      f.version, f.lastComp, 0, stringsLen, structLen ]
  }

  function Tail(f: Format): Bytes {
    if f.terminate then Be(4, END) else []
  }

  /** `Builder::build` for the tokens added so far. */
  function PrintAs(f: Format, rsv: seq<(nat, nat)>, ts: seq<Token>): Bytes {
    var rb := RsvBytes(rsv) + Zeros(16);
    var sb := EncodeAll(Table(ts), ts) + Tail(f);
    var names := Join(Table(ts));
    WordBytes(HeaderWords(f, |rb|, |sb|, |names|)) + (rb + (sb + names))
  }

  function Print(rsv: seq<(nat, nat)>, ts: seq<Token>): Bytes {
    PrintAs(STANDARD, rsv, ts)
  }

  // ---------------------------------------------------------------- scanning what was printed

  lemma Assoc(a: Bytes, b: Bytes, c: Bytes)
    ensures (a + b) + c == a + (b + c)
  {
  }

  /** What starts the rest of the blob can be cut off, and the rest goes on behind it. */
  lemma Cut(blob: Bytes, off: nat, a: Bytes, rest: Bytes)
    requires off <= |blob| && blob[off..] == a + rest
    ensures off + |a| <= |blob| && blob[off..off + |a|] == a && blob[off + |a|..] == rest
  {
    assert blob[off..off + |a|] == blob[off..][..|a|];
    assert blob[off + |a|..] == blob[off..][|a|..];
  }

  lemma BeAt(blob: Bytes, off: nat, v: nat, rest: Bytes)
    requires off <= |blob| && v < 0x1_0000_0000 && blob[off..] == Be(4, v) + rest
    ensures off + 4 <= |blob| && ReadBe(blob[off..off + 4]) == v && blob[off + 4..] == rest
  {
    hide Be, ReadBe;
    Words();
    BeReads(4, v);
    Cut(blob, off, Be(4, v), rest);
  }

  /** A name block: the name, a NUL, padding. */
  lemma BeginAt(blob: Bytes, h: Header, off: nat, name: Bytes, rest: Bytes)
    requires HeaderOk(blob, h) && off % 4 == 0 && NoNul(name)
    requires off <= |blob| && blob[off..] == NameBlock(name) + rest
    requires off + |name| < h.structEnd
    ensures ScanBegin(blob, h, off) == Ok((Begin(name), off + |NameBlock(name)|))
  {
    hide Pad, FindNul;
    Assoc(name, [0] + Pad(|name| + 1), rest);
    Cut(blob, off, name, [0] + Pad(|name| + 1) + rest);
    assert blob[off + |name|] == blob[off + |name|..][0];
    FindName(blob, off, h.structEnd, name);
    PadUp(off, |name| + 1);
  }

  lemma PadUp(off: nat, n: nat)
    requires off % 4 == 0
    ensures Up4(off + n) == off + n + |Pad(n)|
  {
  }

  lemma SliceOfSlice(blob: Bytes, a: nat, b: nat, i: nat, j: nat)
    requires a <= b <= |blob| && i <= j <= b - a
    ensures blob[a..b][i..j] == blob[a + i..a + j]
  {
    var inner, outer := blob[a..b][i..j], blob[a + i..a + j];
    forall k | 0 <= k < j - i
      ensures inner[k] == outer[k]
    {
      assert inner[k] == blob[a..b][i + k] == blob[a + (i + k)];
      assert outer[k] == blob[a + i + k];
    }
  }

  lemma PropIsThere(blob: Bytes, h: Header, names: seq<Bytes>, name: Bytes)
    requires HeaderOk(blob, h) && blob[h.offStrings..h.stringsEnd] == Join(names) && name in names && NoNul(name)
    ensures NameAt(blob, h, NameOffset(names, name)) == Ok(name)
  {
    hide FindNul, Join, NameOffset;
    NameIsThere(names, name);
    var at, s := NameOffset(names, name), Join(names);
    var start := h.offStrings + at;
    SliceOfSlice(blob, h.offStrings, h.stringsEnd, at, at + |name|);
    assert blob[start + |name|] == s[at + |name|];
    FindName(blob, start, h.stringsEnd, name);
  }

  lemma PropBytesAt(blob: Bytes, h: Header, off: nat, names: seq<Bytes>, name: Bytes, value: Bytes, rest: Bytes)
    requires HeaderOk(blob, h) && off % 4 == 0 && NoNul(name) && |blob| < 0x1_0000_0000
    requires blob[h.offStrings..h.stringsEnd] == Join(names) && name in names
    requires off <= |blob| && blob[off..] == PropBlock(names, name, value) + rest
    requires off + 8 + |value| <= h.structEnd
    ensures ScanProp(blob, h, off) == Ok((Prop(name, value), off + |PropBlock(names, name, value)|))
  {
    hide Pad, Be, ReadBe, Join, NameAt, NameOffset;
    var at, block := NameOffset(names, name), ValueBlock(value);
    NameIsThere(names, name);
    Assoc(Be(4, |value|), Be(4, at) + block, rest);
    BeAt(blob, off, |value|, Be(4, at) + block + rest);
    Assoc(Be(4, at), block, rest);
    BeAt(blob, off + 4, at, block + rest);
    Assoc(value, Pad(|value|), rest);
    Cut(blob, off + 8, value, Pad(|value|) + rest);
    PropIsThere(blob, h, names, name);
    PadUp(off + 8, |value|);
  }

  ghost predicate TokenOk(names: seq<Bytes>, t: Token, depth: nat) {
    match t
    case Begin(name) => NoNul(name) && depth < MAX_DEPTH
    case EndNode => depth > 0
    case Prop(name, value) => NoNul(name) && name in names && depth > 0
    case Nop => true
    case Fin => depth == 0
  }

  /** Scanning at the start of a printed token returns that token and the offset behind it. */
  lemma ScanPrinted(blob: Bytes, h: Header, off: nat, names: seq<Bytes>, t: Token, rest: Bytes, depth: nat)
    requires HeaderOk(blob, h) && off % 4 == 0 && |blob| < 0x1_0000_0000
    requires blob[h.offStrings..h.stringsEnd] == Join(names) && TokenOk(names, t, depth)
    requires off <= |blob| && blob[off..] == Encode(names, t) + rest && off + |Encode(names, t)| <= h.structEnd
    ensures Scan(blob, h, off, depth) == Ok((t, off + |Encode(names, t)|))
    ensures blob[off + |Encode(names, t)|..] == rest
  {
    hide Pad, HeaderOk, ScanBegin, ScanProp, Be, ReadBe, Join, NameOffset;
    Cut(blob, off, Encode(names, t), rest);
    WordsFit(blob, h);
    match t
    case Begin(name) =>
      Assoc(Be(4, BEGIN_NODE), NameBlock(name), rest);
      BeAt(blob, off, BEGIN_NODE, NameBlock(name) + rest);
      BeginAt(blob, h, off + 4, name, rest);
    case Prop(name, value) =>
      Assoc(Be(4, PROP), PropBlock(names, name, value), rest);
      BeAt(blob, off, PROP, PropBlock(names, name, value) + rest);
      PropBytesAt(blob, h, off + 4, names, name, value, rest);
    case EndNode => BeAt(blob, off, END_NODE, rest);
    case Nop => BeAt(blob, off, NOP, rest);
    case Fin => BeAt(blob, off, END, rest);
  }

  lemma WordsFit(blob: Bytes, h: Header)
    requires HeaderOk(blob, h)
    ensures h.structEnd <= |blob| && h.structEnd % 4 == 0
  {
  }
}
