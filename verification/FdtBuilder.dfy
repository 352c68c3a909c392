/** The device tree builder as it runs: bytes appended in loops, names shared in the strings block. */
module FdtBuilder {
  import opened Abi
  import opened FdtBytes
  import opened Fdt
  import opened FdtPrinter
  import opened FdtRoundTrip
  import opened FdtNoise
  import opened FdtBoards
  import opened FdtBoardTrip

  lemma TableAppend(ts: seq<Token>, t: Token)
    ensures Table(ts + [t]) == AddName(Table(ts), t)
  {
    assert (ts + [t])[..|ts|] == ts;
  }

  /** Adding a token appends its bytes and leaves the bytes before it alone. */
  lemma AppendToken(ts: seq<Token>, t: Token)
    ensures EncodeAll(Table(ts + [t]), ts + [t]) == EncodeAll(Table(ts), ts) + Encode(Table(ts + [t]), t)
  {
    hide Encode, EncodeAll, Table;
    TableAppend(ts, t);
    TableNames(ts);
    var names, names' := Table(ts), Table(ts + [t]);
    EncodeAppend(names', ts, t);
    var more := if t.Prop? && t.name !in names then [t.name] else [];
    assert names' == names + more;
    EncodeStable(names, more, ts);
  }

  lemma {:induction false} JoinSplit(a: seq<Bytes>, b: seq<Bytes>)
    ensures Join(a + b) == Join(a) + Join(b)
  {
    if a == [] {
      assert a + b == b;
    } else {
      assert (a + b)[1..] == a[1..] + b;
      JoinSplit(a[1..], b);
      Assoc(a[0] + [0], Join(a[1..]), Join(b));
    }
  }

  lemma JoinDrop(names: seq<Bytes>, k: nat)
    requires k < |names|
    ensures var at := |Join(names[..k])|;
            && at + |names[k]| < |Join(names)| && Join(names)[at + |names[k]|] == 0
            && Join(names)[at..at + |names[k]|] == names[k]
    ensures |Join(names[..k + 1])| == |Join(names[..k])| + |names[k]| + 1
  {
    var s, front, rest := Join(names), names[..k], names[k + 1..];
    assert names == front + ([names[k]] + rest) && names[..k + 1] == front + [names[k]];
    JoinSplit(front, [names[k]] + rest);
    JoinAppend(front, names[k]);
    assert ([names[k]] + rest)[1..] == rest;
    hide Join;
    Cut(s, 0, Join(front), names[k] + [0] + Join(rest));
    Assoc(names[k], [0], Join(rest));
    Cut(s, |Join(front)|, names[k], [0] + Join(rest));
    assert s[|Join(front)| + |names[k]|] == s[|Join(front)| + |names[k]|..][0];
  }

  lemma {:induction false} OffsetIs(names: seq<Bytes>, k: nat)
    requires k < |names| && names[k] !in names[..k]
    ensures NameOffset(names, names[k]) == |Join(names[..k])|
    decreases k
  {
    if k > 0 {
      assert names[0] in names[..k];
      assert names[..k][1..] == names[1..][..k - 1];
      assert names[1..][k - 1] == names[k];
      OffsetIs(names[1..], k - 1);
    }
  }

  class Builder {
    var rsvmap: Entries
    var structure: Bytes
    var strings: Bytes
    var version: nat
    var lastComp: nat
    var terminate: bool
    ghost var toks: seq<Token>

    /** The bytes are those of the tokens added so far. */
    ghost predicate Written()
      reads this
    {
      structure == EncodeAll(Table(toks), toks) && strings == Join(Table(toks))
    }

    /** No property name so far holds a NUL, so the strings block can be searched for names. */
    ghost predicate Valid()
      reads this
    {
      Written() && AllNoNul(Table(toks))
    }

    constructor ()
      ensures Valid() && toks == [] && rsvmap == [] && Format(version, lastComp, terminate) == STANDARD
    {
      rsvmap, structure, strings, toks := [], [], [], [];
      version, lastComp, terminate := 17, 16, true;
    }

    method Memreserve(base: nat, size: nat)
      modifies `rsvmap
      ensures rsvmap == old(rsvmap) + [(base, size)]
    {
      rsvmap := rsvmap + [(base, size)];
    }

    method Word(t: nat)
      modifies `structure
      ensures structure == old(structure) + Be(4, t)
    {
      structure := structure + Be(4, t);
    }

    /** Zero bytes up to the next multiple of four. */
    method PadOut()
      modifies `structure
      ensures structure == old(structure) + Pad(|old(structure)|)
    {
      while |structure| % 4 != 0
        invariant |structure| <= Up4(|old(structure)|)
        invariant structure == old(structure) + Zeros(|structure| - |old(structure)|)
        decreases Up4(|old(structure)|) - |structure|
      {
        structure := structure + [0];
      }
    }

    method AddBegin(name: Bytes)
      requires Valid()
      modifies `structure, `toks
      ensures Valid() && toks == old(toks) + [Begin(name)]
    {
      hide EncodeAll, Table, Join, Be, Pad;
      WholeSoFar(toks);
      Word(BEGIN_NODE);
      structure := structure + name + [0];
      PadOut();
      PadSame(|old(structure)| + 4, |name| + 1);
      toks := toks + [Begin(name)];
      BeginAdded(old(toks), old(structure), name, structure);
    }

    method AddEnd()
      requires Valid()
      modifies `structure, `toks
      ensures Valid() && toks == old(toks) + [EndNode]
    {
      hide EncodeAll, Table, Join, Be;
      Word(END_NODE);
      toks := toks + [EndNode];
      TokenAdded(old(toks), EndNode);
    }

    method AddNop()
      requires Valid()
      modifies `structure, `toks
      ensures Valid() && toks == old(toks) + [Nop]
    {
      hide EncodeAll, Table, Join, Be;
      Word(NOP);
      toks := toks + [Nop];
      TokenAdded(old(toks), Nop);
    }

    /** The offset of a name, appended to the strings block unless it is there already. */
    method StringOffset(name: Bytes, ghost names: seq<Bytes>) returns (off: nat)
      requires strings == Join(names) && AllNoNul(names)
      modifies `strings
      ensures var names' := if name in names then names else names + [name];
              strings == Join(names') && off == NameOffset(names', name)
    {
      hide Join, NameOffset, FindNul;
      off := 0;
      ghost var k := 0;
      JoinStarts(names);
      assert names[..|names|] == names;
      while off < |strings|
        invariant k <= |names| && off == |Join(names[..k])| && name !in names[..k]
        invariant strings == Join(names)
        decreases |strings| - off
      {
        JoinDrop(names, k);
        FindName(strings, off, |strings|, names[k]);
        var e := FindNulLoop(strings, off, |strings|);
        if strings[off..e.value] == name {
          OffsetIs(names, k);
          return;
        }
        assert names[..k + 1] == names[..k] + [names[k]];
        off := e.value + 1;
        k := k + 1;
      }
      AllSeen(names, k);
      off := |strings|;
      JoinAppend(names, name);
      NewOffset(names, name);
      strings := strings + name + [0];
    }

    method AddProp(name: Bytes, value: Bytes)
      requires Valid()
      modifies `structure, `strings, `toks
      ensures Written() && toks == old(toks) + [Prop(name, value)]
      ensures NoNul(name) ==> Valid()
    {
      hide EncodeAll, Table, Join, Be, Pad, NameOffset;
      WholeSoFar(toks);
      var off := StringOffset(name, Table(toks));
      Word(PROP);
      structure := structure + Be(4, |value|) + Be(4, off) + value;
      PadOut();
      PadSame(|old(structure)| + 12, |value|);
      toks := toks + [Prop(name, value)];
      PropAdded(old(toks), old(structure), name, value, off, structure);
      if NoNul(name) {
        OneMoreName(Table(old(toks)), name);
      }
    }

    method AddWordProp(name: Bytes, v: nat)
      requires Valid() && NoNul(name)
      modifies `structure, `strings, `toks
      ensures Valid() && toks == old(toks) + [Prop(name, Be(4, v))]
    {
      AddProp(name, Be(4, v));
    }

    /** Any tokens, one after the other. */
    method AddAll(ts: seq<Token>)
      requires Valid() && Printable(ts)
      modifies `structure, `strings, `toks
      ensures Valid() && toks == old(toks) + ts
    {
      hide EncodeAll, Table, Join, AllNoNul, CleanNames;
      var i := 0;
      while i < |ts|
        invariant i <= |ts| && Valid() && toks == old(toks) + ts[..i]
      {
        TokenPrints(ts, i);
        match ts[i] {
          case Begin(name) => AddBegin(name);
          case EndNode => AddEnd();
          case Prop(name, value) => AddProp(name, value);
          case Nop => AddNop();
        }
        assert ts[..i + 1] == ts[..i] + [ts[i]];
        i := i + 1;
      }
      assert ts[..i] == ts;
    }

    /** The whole blob. */
    method Build() returns (blob: Bytes)
      requires Written()
      ensures blob == PrintAs(Format(version, lastComp, terminate), rsvmap, toks)
    {
      hide EncodeAll, Table, Join, Be, RsvBytes, Zeros;
      var rsv := [];
      var i := 0;
      while i < |rsvmap|
        invariant i <= |rsvmap| && rsv + RsvBytes(rsvmap[i..]) == RsvBytes(rsvmap)
      {
        RsvStep(rsvmap, i);
        Assoc(rsv, Be(8, rsvmap[i].0) + Be(8, rsvmap[i].1), RsvBytes(rsvmap[i + 1..]));
        rsv := rsv + (Be(8, rsvmap[i].0) + Be(8, rsvmap[i].1));
        i := i + 1;
      }
      RsvNone(rsvmap, rsv);
      rsv := rsv + Zeros(16);
      var st := structure;
      if terminate {
        st := st + Be(4, END);
      }
      assert structure + [] == structure;
      var words := HeaderWords(Format(version, lastComp, terminate), |rsv|, |st|, |strings|);
      blob := WordBytes(words) + (rsv + (st + strings));
    }
  }

  /** Tokens the builder can write: clean names, and no END among them. */
  ghost predicate Printable(ts: seq<Token>) {
    CleanNames(ts) && forall i :: 0 <= i < |ts| ==> !ts[i].Fin?
  }

  lemma TokenPrints(ts: seq<Token>, i: nat)
    requires Printable(ts) && i < |ts|
    ensures !ts[i].Fin? && (ts[i].Begin? ==> NoNul(ts[i].name)) && (ts[i].Prop? ==> NoNul(ts[i].name))
  {
  }

  lemma AllSeen(names: seq<Bytes>, k: nat)
    requires k <= |names| && |Join(names[..k])| >= |Join(names)|
    ensures names[..k] == names
  {
    if k < |names| {
      JoinDrop(names, k);
    }
  }

  lemma JoinStarts(names: seq<Bytes>)
    ensures |Join(names[..0])| == 0
  {
  }

  lemma RsvStep(rsv: Entries, i: nat)
    requires i < |rsv|
    ensures RsvBytes(rsv[i..]) == Be(8, rsv[i].0) + Be(8, rsv[i].1) + RsvBytes(rsv[i + 1..])
  {
    assert rsv[i..][1..] == rsv[i + 1..];
  }

  lemma RsvNone(rsv: Entries, done: Bytes)
    requires done + RsvBytes(rsv[|rsv|..]) == RsvBytes(rsv)
    ensures done == RsvBytes(rsv)
  {
    assert rsv[|rsv|..] == [];
    assert done + [] == done;
  }

  lemma WholeSoFar(ts: seq<Token>)
    ensures |EncodeAll(Table(ts), ts)| % 4 == 0
  {
    EncodeAllWhole(Table(ts), ts);
  }

  lemma PadSame(base: nat, n: nat)
    requires base % 4 == 0
    ensures Pad(base + n) == Pad(n)
  {
  }

  lemma OneMoreName(names: seq<Bytes>, name: Bytes)
    requires AllNoNul(names) && NoNul(name)
    ensures AllNoNul(if name in names then names else names + [name])
  {
  }

  lemma TokenAdded(ts: seq<Token>, t: Token)
    requires t.EndNode? || t.Nop?
    ensures Table(ts + [t]) == Table(ts)
    ensures EncodeAll(Table(ts + [t]), ts + [t]) ==
            EncodeAll(Table(ts), ts) + Be(4, if t.EndNode? then END_NODE else NOP)
  {
    hide EncodeAll, Table;
    TableAppend(ts, t);
    AppendToken(ts, t);
  }

  lemma BeginAdded(ts: seq<Token>, before: Bytes, name: Bytes, after: Bytes)
    requires before == EncodeAll(Table(ts), ts)
    requires after == before + Be(4, BEGIN_NODE) + name + [0] + Pad(|name| + 1)
    ensures Table(ts + [Begin(name)]) == Table(ts)
    ensures after == EncodeAll(Table(ts + [Begin(name)]), ts + [Begin(name)])
  {
    hide EncodeAll, Table, Be, Pad;
    var t := Begin(name);
    TableAppend(ts, t);
    AppendToken(ts, t);
    assert after == before + (Be(4, BEGIN_NODE) + (name + ([0] + Pad(|name| + 1))));
  }

  lemma PropAdded(ts: seq<Token>, before: Bytes, name: Bytes, value: Bytes, off: nat, after: Bytes)
    requires before == EncodeAll(Table(ts), ts)
    requires off == NameOffset(AddName(Table(ts), Prop(name, value)), name)
    requires after == before + Be(4, PROP) + Be(4, |value|) + Be(4, off) + value + Pad(|value|)
    ensures Table(ts + [Prop(name, value)]) == AddName(Table(ts), Prop(name, value))
    ensures after == EncodeAll(Table(ts + [Prop(name, value)]), ts + [Prop(name, value)])
  {
    hide EncodeAll, Table, Be, Pad, NameOffset;
    var t := Prop(name, value);
    TableAppend(ts, t);
    AppendToken(ts, t);
    assert after == before + (Be(4, PROP) + (Be(4, |value|) + (Be(4, off) + (value + Pad(|value|)))));
  }

  // ---------------------------------------------------------------- boards

  /** `push_cells`. */
  method PushCells(v: Bytes, x: nat, cells: nat) returns (r: Bytes)
    ensures r == v + Cells(x, cells)
  {
    hide Be;
    r := v;
    var i: nat := cells;
    while i > 0
      invariant i <= cells && r + Cells(x, i) == v + Cells(x, cells)
    {
      i := i - 1;
      var word := if i >= 2 then 0 else if i == 1 then x / 0x1_0000_0000 else x;
      Assoc(r, Be(4, word), Cells(x, i));
      r := r + Be(4, word);
    }
    assert r + [] == r;
  }

  /** `reg`. */
  method RegValue(entries: Entries, ac: nat, sc: nat) returns (v: Bytes)
    ensures v == Reg(entries, ac, sc)
  {
    hide Cells;
    v := [];
    assert entries[0..] == entries;
    assert [] + Reg(entries, ac, sc) == Reg(entries, ac, sc);
    var i := 0;
    while i < |entries|
      invariant i <= |entries| && v + Reg(entries[i..], ac, sc) == Reg(entries, ac, sc)
    {
      var (base, size) := entries[i];
      assert entries[i..][1..] == entries[i + 1..];
      ghost var rest := Reg(entries[i + 1..], ac, sc);
      Assoc(v, Cells(base, ac), Cells(size, sc) + rest);
      Assoc(v + Cells(base, ac), Cells(size, sc), rest);
      v := PushCells(v, base, ac);
      v := PushCells(v, size, sc);
      i := i + 1;
    }
    assert entries[i..] == [];
    assert v + [] == v;
  }

  lemma KnownNames()
    ensures NoNul(ADDRESS_CELLS) && NoNul(SIZE_CELLS) && NoNul(REG) && NoNul(RNG_SEED) && NoNul(KASLR_SEED)
    ensures NoNul(CHOSEN)
    ensures NoNul(COMPATIBLE) && NoNul(BOOTARGS) && NoNul(DEVICE_TYPE) && NoNul(RANGES) && NoNul(SIZE) && NoNul(NO_MAP)
    ensures NoNul(RESERVED_MEMORY) && NoNul(REGION_AT) && NoNul(MEMORY) && NoNul(MEMORY_AT)
  {
  }

  method WriteCells(b: Builder, cells: Option<(nat, nat)>)
    requires b.Valid()
    modifies b`structure, b`strings, b`toks
    ensures b.Valid() && b.toks == old(b.toks) + CellProps(cells)
  {
    hide EncodeAll, Table, Join, AllNoNul, CleanNames, NoNul, Be;
    KnownNames();
    ghost var o := b.toks;
    if cells.Some? {
      b.AddWordProp(ADDRESS_CELLS, cells.value.0);
      b.AddWordProp(SIZE_CELLS, cells.value.1);
      Chain2(o, b.toks[|o|..|o| + 1], b.toks[|o| + 1..]);
    }
  }

  method WriteSeed(b: Builder, name: Bytes, seed: Option<Bytes>)
    requires b.Valid() && NoNul(name)
    modifies b`structure, b`strings, b`toks
    ensures b.Valid() && b.toks == old(b.toks) + SeedProp(name, seed)
  {
    if seed.Some? {
      b.AddProp(name, seed.value);
    }
  }

  ghost predicate PrintableNoise(noise: Noise) {
    forall site :: Printable(noise(site))
  }

  method WriteChosen(b: Builder, d: Board, noise: Noise)
    requires b.Valid() && PrintableNoise(noise)
    modifies b`structure, b`strings, b`toks
    ensures b.Valid() && b.toks == old(b.toks) + ChosenTokens(d, noise)
  {
    hide EncodeAll, Table, Join, AllNoNul, CleanNames, NoNul, SeedProp, Printable;
    KnownNames();
    ghost var o := b.toks;
    if d.rngSeed.Some? || d.kaslrSeed.Some? {
      b.AddBegin(CHOSEN);
      b.AddAll(noise(InChosen));
      WriteSeed(b, RNG_SEED, d.rngSeed);
      b.AddProp(BOOTARGS, CONSOLE_ARGS);
      ghost var mid := b.toks;
      WriteSeed(b, KASLR_SEED, d.kaslrSeed);
      b.AddAll(noise(ChosenEnd));
      b.AddEnd();
      ghost var tail := SeedProp(KASLR_SEED, d.kaslrSeed) + (noise(ChosenEnd) + [EndNode]);
      Chain3(mid, SeedProp(KASLR_SEED, d.kaslrSeed), noise(ChosenEnd), [EndNode]);
      Chain5(o, [Begin(CHOSEN)], noise(InChosen), SeedProp(RNG_SEED, d.rngSeed), [Prop(BOOTARGS, CONSOLE_ARGS)], tail);
    } else {
      assert o + [] == o;
    }
  }

  method WriteMemory(b: Builder, memory: seq<Entries>, ac: nat, sc: nat, noise: Noise)
    requires b.Valid() && PrintableNoise(noise)
    modifies b`structure, b`strings, b`toks
    ensures b.Valid() && b.toks == old(b.toks) + MemoriesTokens(memory, ac, sc, noise)
  {
    hide EncodeAll, Table, Join, AllNoNul, CleanNames, MemoryTokens, Printable;
    var i := 0;
    while i < |memory|
      invariant i <= |memory| && b.Valid()
      invariant b.toks == old(b.toks) + MemoriesTokens(memory[..i], ac, sc, noise)
    {
      assert memory[..i + 1][..i] == memory[..i];
      WriteOneMemory(b, i, memory[i], ac, sc, noise);
      Chain2(old(b.toks), MemoriesTokens(memory[..i], ac, sc, noise), MemoryTokens(i, memory[i], ac, sc, noise));
      i := i + 1;
    }
    assert memory[..i] == memory;
  }

  method WriteOneMemory(b: Builder, i: nat, entries: Entries, ac: nat, sc: nat, noise: Noise)
    requires b.Valid() && PrintableNoise(noise)
    modifies b`structure, b`strings, b`toks
    ensures b.Valid() && b.toks == old(b.toks) + MemoryTokens(i, entries, ac, sc, noise)
  {
    hide EncodeAll, Table, Join, AllNoNul, CleanNames, Reg, Printable;
    KnownNames();
    ghost var o := b.toks;
    var name := MemoryName(i, entries);
    b.AddBegin(name);
    b.AddProp(DEVICE_TYPE, MEMORY_TYPE);
    b.AddAll(noise(InMemory(i)));
    var value := RegValue(entries, ac, sc);
    b.AddProp(REG, value);
    ghost var mid := b.toks;
    b.AddAll(noise(MemoryEnd(i)));
    b.AddEnd();
    b.AddAll(noise(AfterMemory(i)));
    ghost var tail := noise(MemoryEnd(i)) + ([EndNode] + noise(AfterMemory(i)));
    Chain3(mid, noise(MemoryEnd(i)), [EndNode], noise(AfterMemory(i)));
    Chain5(o, [Begin(name)], [Prop(DEVICE_TYPE, MEMORY_TYPE)], noise(InMemory(i)), [Prop(REG, value)], tail);
  }

  method WriteChildren(b: Builder, children: seq<Option<Entries>>, ac: nat, sc: nat, noise: Noise)
    requires b.Valid() && PrintableNoise(noise)
    modifies b`structure, b`strings, b`toks
    ensures b.Valid() && b.toks == old(b.toks) + ChildrenTokens(children, ac, sc, noise)
  {
    hide EncodeAll, Table, Join, AllNoNul, CleanNames, ChildTokens, Printable;
    var i := 0;
    while i < |children|
      invariant i <= |children| && b.Valid()
      invariant b.toks == old(b.toks) + ChildrenTokens(children[..i], ac, sc, noise)
    {
      assert children[..i + 1][..i] == children[..i];
      WriteOneChild(b, i, children[i], ac, sc, noise);
      Chain2(old(b.toks), ChildrenTokens(children[..i], ac, sc, noise), ChildTokens(i, children[i], ac, sc, noise));
      i := i + 1;
    }
    assert children[..i] == children;
  }

  method WriteOneChild(b: Builder, i: nat, child: Option<Entries>, ac: nat, sc: nat, noise: Noise)
    requires b.Valid() && PrintableNoise(noise)
    modifies b`structure, b`strings, b`toks
    ensures b.Valid() && b.toks == old(b.toks) + ChildTokens(i, child, ac, sc, noise)
  {
    hide EncodeAll, Table, Join, AllNoNul, CleanNames, Reg, Printable;
    KnownNames();
    ghost var o := b.toks;
    var name := ChildName(i);
    b.AddBegin(name);
    var value;
    if child.Some? {
      value := RegValue(child.value, ac, sc);
      b.AddProp(REG, value);
    } else {
      value := RegValue([(0, 0x10_0000)], 0, sc);
      b.AddProp(SIZE, value);
    }
    b.AddProp(NO_MAP, []);
    b.AddAll(noise(ChildEnd(i)));
    b.AddEnd();
    Chain5(o, [Begin(name)], [ChildProp(child, ac, sc)], [Prop(NO_MAP, [])], noise(ChildEnd(i)), [EndNode]);
  }

  method WriteReserved(b: Builder, d: Board, noise: Noise)
    requires b.Valid() && PrintableNoise(noise)
    modifies b`structure, b`strings, b`toks
    ensures b.Valid() && b.toks == old(b.toks) + ReservedTokens(d, noise)
  {
    hide EncodeAll, Table, Join, AllNoNul, CleanNames, NoNul, CellProps, ChildrenTokens, Printable;
    KnownNames();
    ghost var o := b.toks;
    if d.rsvChildren != [] || d.rsvCells.Some? {
      var c := RsvCellsOf(d);
      b.AddBegin(RESERVED_MEMORY);
      WriteCells(b, d.rsvCells);
      b.AddProp(RANGES, []);
      b.AddAll(noise(InReserved));
      ghost var mid := b.toks;
      WriteChildren(b, d.rsvChildren, c.0, c.1, noise);
      b.AddEnd();
      ghost var kids := ChildrenTokens(d.rsvChildren, c.0, c.1, noise);
      Chain2(mid, kids, [EndNode]);
      Chain5(o, [Begin(RESERVED_MEMORY)], CellProps(d.rsvCells), [Prop(RANGES, [])], noise(InReserved),
             kids + [EndNode]);
    } else {
      assert o + [] == o;
    }
  }

  method WriteReservations(b: Builder, memreserve: Entries)
    requires b.Valid()
    modifies b`rsvmap
    ensures b.Valid() && b.rsvmap == old(b.rsvmap) + memreserve
  {
    hide EncodeAll, Table, Join, AllNoNul, CleanNames;
    var i := 0;
    while i < |memreserve|
      invariant i <= |memreserve| && b.Valid()
      invariant b.rsvmap == old(b.rsvmap) + memreserve[..i]
    {
      b.Memreserve(memreserve[i].0, memreserve[i].1);
      i := i + 1;
    }
    assert memreserve[..i] == memreserve;
  }

  /** `Board::write`. */
  method Write(b: Builder, d: Board, noise: Noise)
    requires b.Valid() && PrintableNoise(noise)
    modifies b`rsvmap, b`structure, b`strings, b`toks
    ensures b.Valid() && b.toks == old(b.toks) + BoardTokens(d, noise) && b.rsvmap == old(b.rsvmap) + d.memreserve
  {
    hide EncodeAll, Table, Join, AllNoNul, CleanNames, NoNul, CellProps, ChosenTokens, MemoriesTokens, ReservedTokens,
         Printable;
    KnownNames();
    NoName();
    ghost var o := b.toks;
    WriteReservations(b, d.memreserve);
    var c := RootCells(d);
    b.AddBegin([]);
    WriteCells(b, d.cells);
    b.AddProp(COMPATIBLE, DUMMY_VIRT);
    b.AddAll(noise(InRoot));
    ghost var mid := b.toks;
    WriteChosen(b, d, noise);
    WriteMemory(b, d.memory, c.0, c.1, noise);
    WriteReserved(b, d, noise);
    b.AddAll(noise(RootEnd));
    b.AddEnd();
    ghost var memories, reserved := MemoriesTokens(d.memory, c.0, c.1, noise), ReservedTokens(d, noise);
    ghost var tail := ChosenTokens(d, noise) + (memories + (reserved + (noise(RootEnd) + [EndNode])));
    Chain5(mid, ChosenTokens(d, noise), memories, reserved, noise(RootEnd), [EndNode]);
    Chain5(o, [Begin([])], CellProps(d.cells), [Prop(COMPATIBLE, DUMMY_VIRT)], noise(InRoot), tail);
  }

  lemma NoName()
    ensures NoNul([])
  {
  }

  lemma Chain2(o: seq<Token>, a: seq<Token>, b: seq<Token>)
    ensures o + a + b == o + (a + b)
  {
  }

  lemma Chain3(o: seq<Token>, a: seq<Token>, b: seq<Token>, c: seq<Token>)
    ensures o + a + b + c == o + (a + (b + c))
  {
    Chain2(o + a, b, c);
    Chain2(o, a, b + c);
  }

  lemma Chain4(o: seq<Token>, a: seq<Token>, b: seq<Token>, c: seq<Token>, d: seq<Token>)
    ensures o + a + b + c + d == o + (a + (b + (c + d)))
  {
    Chain3(o + a, b, c, d);
    Chain2(o, a, b + (c + d));
  }

  lemma Chain5(o: seq<Token>, a: seq<Token>, b: seq<Token>, c: seq<Token>, d: seq<Token>, e: seq<Token>)
    ensures o + a + b + c + d + e == o + (a + (b + (c + (d + e))))
  {
    Chain4(o + a, b, c, d, e);
    Chain2(o, a, b + (c + (d + e)));
  }

  // ---------------------------------------------------------------- the printed board parses back

  /** The builder's bytes for a board and any noise, and what the parser makes of them if the noise is quiet. */
  method Blob(d: Board, noise: Noise) returns (blob: Bytes)
    requires PrintableNoise(noise)
    ensures blob == Print(d.memreserve, BoardTokens(d, noise))
    ensures WellFormed(d) && QuietNoise(d, noise) && |blob| < 0x1_0000_0000 ==> Parse(blob) == Verdict(d)
  {
    hide BoardTokens, PrintAs, Parse, WellFormed, Verdict, CleanNames, EncodeAll, Table, Join, QuietNoise,
         PrintableNoise;
    var b := new Builder();
    Write(b, d, noise);
    assert [] + BoardTokens(d, noise) == BoardTokens(d, noise) && [] + d.memreserve == d.memreserve;
    blob := b.Build();
    if WellFormed(d) && QuietNoise(d, noise) && |blob| < 0x1_0000_0000 {
      BoardRoundTrip(d, noise);
    }
  }

  /** `Board::blob`: the builder's bytes without noise, which every well-formed board survives. */
  method PlainBlob(d: Board) returns (blob: Bytes)
    ensures WellFormed(d) && |blob| < 0x1_0000_0000 ==> Parse(blob) == Verdict(d)
  {
    hide BoardTokens, Print, Parse, WellFormed, Verdict, QuietNoise;
    assert PrintableNoise(Silence());
    SilenceIsQuiet(d);
    blob := Blob(d, Silence());
  }

  lemma {:induction false} LevelNoFin(ts: seq<Token>, depth: nat, end: nat)
    requires Level(ts, depth, end)
    ensures forall i :: 0 <= i < |ts| ==> !ts[i].Fin?
    decreases |ts|
  {
    if ts != [] {
      var next := match ts[0] case Begin(_) => depth + 1 case EndNode => depth - 1 case _ => depth;
      LevelNoFin(ts[1..], next, end);
      forall i | 0 <= i < |ts|
        ensures !ts[i].Fin?
      {
        assert i > 0 ==> ts[i] == ts[1..][i - 1];
      }
    }
  }

  lemma SiteDepth(d: Board, site: Site)
    ensures 1 <= |SitePath(d, site)| <= 3
  {
  }

  /** A board with junk at every place the fuzzer may put it: the parser finds exactly the board. */
  method JunkBlob(d: Board, junk: Site -> seq<Junk>) returns (blob: Bytes)
    requires forall site :: Harmless(junk(site), 29)
    ensures WellFormed(d) && |blob| < 0x1_0000_0000 ==> Parse(blob) == Verdict(d)
  {
    hide BoardTokens, Print, Parse, WellFormed, Verdict, Harmless, CleanNames, Level, Rooted, Effects, PathAfter,
         SitePath, JunkTokens;
    var noise: Noise := site => JunkTokens(junk(site));
    forall site
      ensures Quiet(SitePath(d, site), noise(site)) && Printable(noise(site))
    {
      SiteDepth(d, site);
      JunkIsQuiet(SitePath(d, site), junk(site), 29);
      LevelNoFin(noise(site), |SitePath(d, site)|, |SitePath(d, site)|);
    }
    blob := Blob(d, noise);
  }
}
