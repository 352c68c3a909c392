/** The round trip of a board: print its tokens, with noise, and parse the bytes. */
module FdtBoardTrip {
  import opened Abi
  import opened FdtBytes
  import opened Fdt
  import opened FdtPaths
  import opened FdtPrinter
  import opened FdtRoundTrip
  import opened FdtNoise
  import opened FdtBoards

  // ---------------------------------------------------------------- folding in pieces

  lemma {:induction false} FoldAppend(w: Walker, a: seq<Token>, b: seq<Token>)
    ensures Fold(w, a + b) == match Fold(w, a) case Err(e) => Err(e) case Ok(w') => Fold(w', b)
    decreases |a|
  {
    hide Walk;
    if a == [] {
      assert a + b == b;
    } else {
      assert (a + b)[1..] == a[1..] + b;
      if Walk(w, a[0]).Ok? {
        FoldAppend(Walk(w, a[0]).value, a[1..], b);
      }
    }
  }

  lemma FoldOne(w: Walker, t: Token)
    ensures Fold(w, [t]) == Walk(w, t)
  {
    hide Walk;
    assert [t][1..] == [];
  }

  /** The lists are no longer than the parser can hold. */
  predicate Within(w: Walker) {
    |w.info.memory| <= MAX_MEM_REGIONS && |w.info.reserved| <= MAX_RSV_REGIONS
  }

  function Limited(w: Walker): Result<Walker, BootError> {
    if Within(w) then Ok(w) else Err(TooManyRegions)
  }

  /** Tokens that lead from one path to another, well nested and with clean names. */
  ghost predicate Leads(path: seq<Bytes>, ts: seq<Token>, path': seq<Bytes>) {
    Level(ts, |path|, |path'|) && CleanNames(ts) && Rooted(path, ts) && PathAfter(path, ts) == path'
  }

  /**
    A piece of the tree that takes the reader from `w` to `w'`, or, if that has too many regions, to the
    error that says so.  A reader that is over the limit stays over it.
  */
  ghost predicate Reads(w: Walker, ts: seq<Token>, w': Walker) {
    && Leads(w.path, ts, w'.path) && (Within(w') ==> Within(w))
    && (Within(w) ==> Fold(w, ts) == Limited(w'))
  }

  lemma LeadsBoth(p: seq<Bytes>, a: seq<Token>, q: seq<Bytes>, b: seq<Token>, r: seq<Bytes>)
    requires Leads(p, a, q) && Leads(q, b, r)
    ensures Leads(p, a + b, r)
  {
    hide Level, CleanNames, Rooted, PathAfter, Effects;
    LevelAppend(a, b, |p|, |q|, |r|);
    CleanAppend(a, b);
    Appended(p, a, b);
  }

  lemma ReadsBoth(w: Walker, a: seq<Token>, w1: Walker, b: seq<Token>, w2: Walker)
    requires Reads(w, a, w1) && Reads(w1, b, w2)
    ensures Reads(w, a + b, w2)
  {
    hide Fold, Leads, Within;
    LeadsBoth(w.path, a, w1.path, b, w2.path);
    FoldAppend(w, a, b);
  }

  lemma PropStays(w: Walker, t: Token)
    requires Walk(w, t).Ok?
    ensures Walk(w, t).value.path == PathNext(w.path, t)
  {
    hide ReadReg, CellCount, AddEntropy, IsSeed, RoleOf;
  }

  lemma LeadsOne(w: Walker, t: Token, path: seq<Bytes>)
    requires !t.Fin? && (t.Begin? ==> NoNul(t.name) && |w.path| < MAX_DEPTH)
    requires t.Prop? ==> NoNul(t.name) && w.path != []
    requires t.Prop? || Walk(w, t).Ok?
    requires path == PathNext(w.path, t)
    ensures Leads(w.path, [t], path)
  {
    hide PropAs, RoleOf, Level, CleanNames, Rooted, PathAfter, Effects;
    if w.path != [] {
      SingleToken(w.path, t);
    } else {
      TopToken(t);
    }
  }

  lemma TopToken(t: Token)
    requires t == Begin([]) || t == Nop
    ensures Leads([], [t], PathNext([], t))
  {
    assert [t][1..] == [];
  }

  lemma ReadsOne(w: Walker, t: Token, w': Walker)
    requires Walk(w, t) == Ok(w') && !t.Fin? && (t.Begin? ==> NoNul(t.name) && |w.path| < MAX_DEPTH)
    requires t.Prop? ==> NoNul(t.name) && w.path != []
    requires w'.info.memory == w.info.memory && w'.info.reserved == w.info.reserved
    ensures Reads(w, [t], w')
  {
    hide Walk, Leads;
    FoldOne(w, t);
    PropStays(w, t);
    LeadsOne(w, t, w'.path);
  }

  /** A reg property: the one kind of token that can exceed the limits. */
  lemma ReadsReg(w: Walker, value: Bytes, w': Walker)
    requires w.path != [] && w'.path == w.path && (Within(w') ==> Within(w)) && NoNul(REG)
    requires Within(w) ==> Walk(w, Prop(REG, value)) == Limited(w')
    ensures Reads(w, [Prop(REG, value)], w')
  {
    hide Walk, Leads, Within;
    FoldOne(w, Prop(REG, value));
    LeadsOne(w, Prop(REG, value), w.path);
  }

  /** Noise leaves the reader where and as it was. */
  lemma ReadsNoise(w: Walker, noise: seq<Token>)
    requires Quiet(w.path, noise)
    ensures Reads(w, noise, w)
  {
    hide Effects, PathAfter, Rooted, Level, CleanNames, Fold;
    FoldActs(w, noise);
    assert ActAll(w, []) == Ok(w);
  }

  lemma ReadsNone(w: Walker)
    ensures Reads(w, [], w)
  {
  }

  // ---------------------------------------------------------------- nodes and properties

  lemma ReadsBegin(w: Walker, name: Bytes)
    requires w.path != [] && |w.path| < MAX_DEPTH && NoNul(name) && RoleOf(w.path + [name]) != ReservedNode
    ensures Reads(w, [Begin(name)], w.(path := w.path + [name]))
  {
    ReadsOne(w, Begin(name), w.(path := w.path + [name]));
  }

  lemma ReadsEnd(w: Walker, path: seq<Bytes>, name: Bytes)
    requires w.path == path + [name]
    ensures Reads(w, [EndNode], w.(path := path))
  {
    assert w.path[..|w.path| - 1] == path;
    ReadsOne(w, EndNode, w.(path := path));
  }

  /** Properties the reader has no use for. */
  lemma ReadsIgnored(w: Walker, name: Bytes, value: Bytes)
    requires w.path != [] && NoNul(name) && name != REG && name != ADDRESS_CELLS && name != SIZE_CELLS && !IsSeed(name)
    ensures Reads(w, [Prop(name, value)], w)
  {
    hide IsMemory, IsSeed;
    ReadsOne(w, Prop(name, value), w);
  }

  lemma CellReads(a: nat)
    requires a < 0x1_0000_0000
    ensures CellCount(Be(4, a)) == Ok(a)
  {
    Words();
    BeReads(4, a);
  }

  lemma CellNames()
    ensures ADDRESS_CELLS != SIZE_CELLS && NoNul(ADDRESS_CELLS) && NoNul(SIZE_CELLS) && NoNul(REG) && NoNul(RNG_SEED)
    ensures NoNul(KASLR_SEED)
    ensures RNG_SEED != KASLR_SEED
  {
  }

  lemma RootCellsRead(w: Walker, cells: Option<(nat, nat)>)
    requires RoleOf(w.path) == RootNode && (cells.Some? ==> CellsOk(cells.value))
    ensures var c := CellsOr(cells, (w.ac, w.sc)); Reads(w, CellProps(cells), w.(ac := c.0, sc := c.1))
  {
    hide Be, Reads;
    ReadsNone(w);
    if cells.Some? {
      var (a, s) := cells.value;
      CellNames();
      CellReads(a);
      CellReads(s);
      var w1 := w.(ac := a);
      ReadsOne(w, Prop(ADDRESS_CELLS, Be(4, a)), w1);
      ReadsOne(w1, Prop(SIZE_CELLS, Be(4, s)), w1.(sc := s));
      ReadsBoth(w, [Prop(ADDRESS_CELLS, Be(4, a))], w1, [Prop(SIZE_CELLS, Be(4, s))], w1.(sc := s));
      assert CellProps(cells) == [Prop(ADDRESS_CELLS, Be(4, a))] + [Prop(SIZE_CELLS, Be(4, s))];
    }
  }

  lemma ReservedCellsRead(w: Walker, cells: Option<(nat, nat)>)
    requires RoleOf(w.path) == ReservedNode && (cells.Some? ==> CellsOk(cells.value))
    ensures var c := CellsOr(cells, (w.rac, w.rsc)); Reads(w, CellProps(cells), w.(rac := c.0, rsc := c.1))
  {
    hide Be, Reads, IsMemory;
    ReadsNone(w);
    if cells.Some? {
      var (a, s) := cells.value;
      CellNames();
      CellReads(a);
      CellReads(s);
      var w1 := w.(rac := a);
      ReadsOne(w, Prop(ADDRESS_CELLS, Be(4, a)), w1);
      ReadsOne(w1, Prop(SIZE_CELLS, Be(4, s)), w1.(rsc := s));
      ReadsBoth(w, [Prop(ADDRESS_CELLS, Be(4, a))], w1, [Prop(SIZE_CELLS, Be(4, s))], w1.(rsc := s));
      assert CellProps(cells) == [Prop(ADDRESS_CELLS, Be(4, a))] + [Prop(SIZE_CELLS, Be(4, s))];
    }
  }

  // ---------------------------------------------------------------- /chosen

  lemma SeedReads(w: Walker, name: Bytes, seed: Option<Bytes>)
    requires RoleOf(w.path) == ChosenNode && IsSeed(name) && |w.info.entropy| <= MAX_ENTROPY
    ensures var e := AddEntropy(w.info.entropy, SeedBytes(seed));
            Reads(w, SeedProp(name, seed), w.(info := w.info.(entropy := e))) && |e| <= MAX_ENTROPY
  {
    hide IsMemory, Reads;
    CellNames();
    ReadsNone(w);
    assert w.info.entropy + [] == w.info.entropy;
    if seed.Some? {
      var e := AddEntropy(w.info.entropy, seed.value);
      ReadsOne(w, Prop(name, seed.value), w.(info := w.info.(entropy := e)));
    }
  }

  lemma ChosenRole()
    ensures RoleOf([[], CHOSEN]) == ChosenNode && NoNul(CHOSEN) && NoNul(BOOTARGS)
    ensures BOOTARGS != REG && BOOTARGS != ADDRESS_CELLS && BOOTARGS != SIZE_CELLS && !IsSeed(BOOTARGS)
  {
    NamesDiffer(CHOSEN);
    assert BOOTARGS[0] != RNG_SEED[0] && BOOTARGS[0] != KASLR_SEED[0];
  }

  lemma ChosenReads(w: Walker, d: Board, noise: Noise)
    requires w.path == [[]] && w.info.entropy == []
    requires HasChosen(d) ==> Quiet([[], CHOSEN], noise(InChosen)) && Quiet([[], CHOSEN], noise(ChosenEnd))
    ensures Reads(w, ChosenTokens(d, noise), w.(info := w.info.(entropy := ExpectedEntropy(d))))
  {
    hide Reads, RoleOf, IsSeed, Quiet;
    if !HasChosen(d) {
      ReadsNone(w);
    } else {
      ChosenRole();
      Seeds();
      var w1 := w.(path := [[], CHOSEN]);
      assert w.path + [CHOSEN] == [[], CHOSEN];
      ReadsBegin(w, CHOSEN);
      ReadsNoise(w1, noise(InChosen));
      SeedReads(w1, RNG_SEED, d.rngSeed);
      var e1 := AddEntropy([], SeedBytes(d.rngSeed));
      var w2 := w1.(info := w1.info.(entropy := e1));
      ReadsIgnored(w2, BOOTARGS, CONSOLE_ARGS);
      SeedReads(w2, KASLR_SEED, d.kaslrSeed);
      var e2 := AddEntropy(e1, SeedBytes(d.kaslrSeed));
      var w3 := w2.(info := w2.info.(entropy := e2));
      ReadsNoise(w3, noise(ChosenEnd));
      EntropyIs(d);
      var w4 := w3.(path := [[]]);
      ReadsEnd(w3, [[]], CHOSEN);
      var rest := noise(ChosenEnd) + [EndNode];
      ReadsBoth(w3, noise(ChosenEnd), w3, [EndNode], w4);
      ReadsBoth(w2, SeedProp(KASLR_SEED, d.kaslrSeed), w3, rest, w4);
      rest := SeedProp(KASLR_SEED, d.kaslrSeed) + rest;
      ReadsBoth(w2, [Prop(BOOTARGS, CONSOLE_ARGS)], w2, rest, w4);
      rest := [Prop(BOOTARGS, CONSOLE_ARGS)] + rest;
      ReadsBoth(w1, SeedProp(RNG_SEED, d.rngSeed), w2, rest, w4);
      rest := SeedProp(RNG_SEED, d.rngSeed) + rest;
      ReadsBoth(w1, noise(InChosen), w1, rest, w4);
      ReadsBoth(w, [Begin(CHOSEN)], w1, noise(InChosen) + rest, w4);
    }
  }

  lemma Seeds()
    ensures IsSeed(RNG_SEED) && IsSeed(KASLR_SEED)
  {
  }

  lemma EntropyIs(d: Board)
    ensures AddEntropy(AddEntropy([], SeedBytes(d.rngSeed)), SeedBytes(d.kaslrSeed)) == ExpectedEntropy(d)
  {
    var a, b := SeedBytes(d.rngSeed), SeedBytes(d.kaslrSeed);
    if |a| <= MAX_ENTROPY {
      assert [] + a == a;
    } else {
      assert [] + a[..MAX_ENTROPY] == (a + b)[..MAX_ENTROPY];
    }
  }

  // ---------------------------------------------------------------- memory nodes

  lemma MemoryRole(i: nat, entries: Entries)
    ensures var name := MemoryName(i, entries);
            NoNul(name) && RoleOf([[], name]) == MemoryNode && RoleOf([[]] + [name]) == MemoryNode
    ensures NoNul(DEVICE_TYPE) && DEVICE_TYPE != REG && DEVICE_TYPE != ADDRESS_CELLS && DEVICE_TYPE != SIZE_CELLS
    ensures !IsSeed(DEVICE_TYPE)
  {
    assert DEVICE_TYPE[0] != SIZE_CELLS[0];
    var name := MemoryName(i, entries);
    assert [[]] + [name] == [[], name];
  }

  lemma MemoryReads(w: Walker, i: nat, entries: Entries, noise: Noise)
    requires w.path == [[]] && CellsOk((w.ac, w.sc)) && Fit(entries, w.ac, w.sc) && entries != []
    requires MemoryNoise(i, entries, noise)
    ensures Reads(w, MemoryTokens(i, entries, w.ac, w.sc, noise),
                  w.(info := w.info.(memory := w.info.memory + Sized(entries))))
  {
    hide Reads, RoleOf, IsSeed, Reg, Fit, Sized, MemoryName, ReadReg, Quiet;
    MemoryRole(i, entries);
    CellNames();
    var name, value := MemoryName(i, entries), Reg(entries, w.ac, w.sc);
    var w1 := w.(path := w.path + [name]);
    assert w1.path == [[], name];
    ReadsBegin(w, name);
    ReadsIgnored(w1, DEVICE_TYPE, MEMORY_TYPE);
    ReadsNoise(w1, noise(InMemory(i)));
    var w2 := w1.(info := w1.info.(memory := w.info.memory + Sized(entries)));
    if Within(w1) {
      RegRead(entries, w.ac, w.sc, w.info.memory, MAX_MEM_REGIONS);
    }
    ReadsReg(w1, value, w2);
    ReadsNoise(w2, noise(MemoryEnd(i)));
    var w3 := w2.(path := [[]]);
    ReadsEnd(w2, [[]], name);
    ReadsNoise(w3, noise(AfterMemory(i)));
    var rest := [EndNode] + noise(AfterMemory(i));
    ReadsBoth(w2, [EndNode], w3, noise(AfterMemory(i)), w3);
    ReadsBoth(w2, noise(MemoryEnd(i)), w2, rest, w3);
    rest := noise(MemoryEnd(i)) + rest;
    ReadsBoth(w1, [Prop(REG, value)], w2, rest, w3);
    rest := [Prop(REG, value)] + rest;
    ReadsBoth(w1, noise(InMemory(i)), w1, rest, w3);
    rest := noise(InMemory(i)) + rest;
    ReadsBoth(w1, [Prop(DEVICE_TYPE, MEMORY_TYPE)], w1, rest, w3);
    ReadsBoth(w, [Begin(name)], w1, [Prop(DEVICE_TYPE, MEMORY_TYPE)] + rest, w3);
  }

  /** The three pieces of noise of one memory node. */
  ghost predicate MemoryNoise(i: nat, entries: Entries, noise: Noise) {
    && Quiet([[], MemoryName(i, entries)], noise(InMemory(i)))
    && Quiet([[], MemoryName(i, entries)], noise(MemoryEnd(i)))
    && Quiet([[]], noise(AfterMemory(i)))
  }

  lemma {:induction false} SizedAppend(a: Entries, b: Entries)
    ensures Sized(a + b) == Sized(a) + Sized(b)
  {
    if a == [] {
      assert a + b == b;
    } else {
      assert (a + b)[1..] == a[1..] + b;
      SizedAppend(a[1..], b);
    }
  }

  lemma {:induction false} MemoriesRead(w: Walker, memory: seq<Entries>, noise: Noise)
    requires w.path == [[]] && CellsOk((w.ac, w.sc))
    requires forall i :: 0 <= i < |memory| ==> memory[i] != [] && Fit(memory[i], w.ac, w.sc)
    requires forall i :: 0 <= i < |memory| ==> MemoryNoise(i, memory[i], noise)
    ensures Reads(w, MemoriesTokens(memory, w.ac, w.sc, noise),
                  w.(info := w.info.(memory := w.info.memory + Sized(Flatten(memory)))))
    decreases |memory|
  {
    hide Reads, Fit, Sized, MemoryTokens, MemoryNoise;
    if memory == [] {
      NoneSized();
      assert w.info.memory + [] == w.info.memory;
      ReadsNone(w);
    } else {
      var n := |memory| - 1;
      var init, last := memory[..n], memory[n];
      SizedAppend(Flatten(init), last);
      MemoriesRead(w, init, noise);
      var w1 := w.(info := w.info.(memory := w.info.memory + Sized(Flatten(init))));
      MemoryReads(w1, n, last, noise);
      var w2 := w1.(info := w1.info.(memory := w1.info.memory + Sized(last)));
      ReadsBoth(w, MemoriesTokens(init, w.ac, w.sc, noise), w1, MemoryTokens(n, last, w.ac, w.sc, noise), w2);
      assert w.info.memory + Sized(Flatten(init)) + Sized(last) == w.info.memory + (Sized(Flatten(init)) + Sized(last));
    }
  }

  lemma NoneSized()
    ensures Sized([]) == []
  {
  }

  // ---------------------------------------------------------------- /reserved-memory

  lemma ReservedRole(i: nat)
    ensures RoleOf([[], RESERVED_MEMORY]) == ReservedNode && NoNul(RESERVED_MEMORY)
    ensures NoNul(ChildName(i)) && RoleOf([[], RESERVED_MEMORY] + [ChildName(i)]) == ReservedChild
    ensures NoNul(RANGES) && RANGES != REG && RANGES != ADDRESS_CELLS && RANGES != SIZE_CELLS && !IsSeed(RANGES)
    ensures NoNul(SIZE) && SIZE != REG && SIZE != ADDRESS_CELLS && SIZE != SIZE_CELLS && !IsSeed(SIZE)
    ensures NoNul(NO_MAP) && NO_MAP != REG && NO_MAP != ADDRESS_CELLS && NO_MAP != SIZE_CELLS && !IsSeed(NO_MAP)
  {
    NamesDiffer(RESERVED_MEMORY);
    assert [[], RESERVED_MEMORY] + [ChildName(i)] == [[], RESERVED_MEMORY, ChildName(i)];
  }

  function EntriesOf(child: Option<Entries>): Entries {
    if child.Some? then child.value else []
  }

  lemma ChildReads(w: Walker, i: nat, child: Option<Entries>, noise: Noise)
    requires w.path == [[], RESERVED_MEMORY] && CellsOk((w.rac, w.rsc))
    requires child.Some? ==> child.value != [] && Fit(child.value, w.rac, w.rsc)
    requires Quiet([[], RESERVED_MEMORY, ChildName(i)], noise(ChildEnd(i)))
    ensures Reads(w, ChildTokens(i, child, w.rac, w.rsc, noise),
                  w.(info := w.info.(reserved := w.info.reserved + Sized(EntriesOf(child)))))
  {
    hide Reads, RoleOf, IsSeed, Reg, Fit, Sized, ReadReg, ChildName, Quiet;
    ReservedRole(i);
    CellNames();
    NoneSized();
    var name := ChildName(i);
    var w1 := w.(path := w.path + [name]);
    assert w1.path == [[], RESERVED_MEMORY, name];
    ReadsBegin(w, name);
    var t := ChildProp(child, w.rac, w.rsc);
    var w2 := w1.(info := w1.info.(reserved := w.info.reserved + Sized(EntriesOf(child))));
    if child.Some? {
      if Within(w1) {
        RegRead(child.value, w.rac, w.rsc, w.info.reserved, MAX_RSV_REGIONS);
      }
      ReadsReg(w1, Reg(child.value, w.rac, w.rsc), w2);
    } else {
      assert w.info.reserved + [] == w.info.reserved;
      ReadsIgnored(w1, SIZE, Reg([(0, 0x10_0000)], 0, w.rsc));
    }
    ReadsIgnored(w2, NO_MAP, []);
    ReadsNoise(w2, noise(ChildEnd(i)));
    var w3 := w2.(path := w.path);
    ReadsEnd(w2, w.path, name);
    var rest := noise(ChildEnd(i)) + [EndNode];
    ReadsBoth(w2, noise(ChildEnd(i)), w2, [EndNode], w3);
    ReadsBoth(w2, [Prop(NO_MAP, [])], w2, rest, w3);
    rest := [Prop(NO_MAP, [])] + rest;
    ReadsBoth(w1, [t], w2, rest, w3);
    ReadsBoth(w, [Begin(name)], w1, [t] + rest, w3);
  }

  lemma {:induction false} ChildrenRead(w: Walker, children: seq<Option<Entries>>, noise: Noise)
    requires w.path == [[], RESERVED_MEMORY] && CellsOk((w.rac, w.rsc))
    requires forall i :: 0 <= i < |children| && children[i].Some? ==>
               children[i].value != [] && Fit(children[i].value, w.rac, w.rsc)
    requires forall i: nat :: i < |children| ==> Quiet([[], RESERVED_MEMORY, ChildName(i)], noise(ChildEnd(i)))
    ensures Reads(w, ChildrenTokens(children, w.rac, w.rsc, noise),
                  w.(info := w.info.(reserved := w.info.reserved + Sized(ChildEntries(children)))))
    decreases |children|
  {
    hide Reads, Fit, Sized, ChildTokens, Quiet, ChildName;
    if children == [] {
      NoneSized();
      assert w.info.reserved + [] == w.info.reserved;
      ReadsNone(w);
    } else {
      var n := |children| - 1;
      var init, last := children[..n], children[n];
      assert ChildEntries(children) == ChildEntries(init) + EntriesOf(last);
      SizedAppend(ChildEntries(init), EntriesOf(last));
      ChildrenRead(w, init, noise);
      var w1 := w.(info := w.info.(reserved := w.info.reserved + Sized(ChildEntries(init))));
      ChildReads(w1, n, last, noise);
      var w2 := w1.(info := w1.info.(reserved := w1.info.reserved + Sized(EntriesOf(last))));
      ReadsBoth(w, ChildrenTokens(init, w.rac, w.rsc, noise), w1, ChildTokens(n, last, w.rac, w.rsc, noise), w2);
      assert w.info.reserved + Sized(ChildEntries(init)) + Sized(EntriesOf(last))
          == w.info.reserved + (Sized(ChildEntries(init)) + Sized(EntriesOf(last)));
    }
  }

  lemma ReservedReads(w: Walker, d: Board, noise: Noise)
    requires w.path == [[]] && (w.ac, w.sc) == RootCells(d) && CellsOk(RsvCellsOf(d))
    requires var c := RsvCellsOf(d);
             forall i :: 0 <= i < |d.rsvChildren| && d.rsvChildren[i].Some? ==>
               d.rsvChildren[i].value != [] && Fit(d.rsvChildren[i].value, c.0, c.1)
    requires HasReserved(d) ==> Quiet([[], RESERVED_MEMORY], noise(InReserved))
    requires forall i: nat :: i < |d.rsvChildren| ==> Quiet([[], RESERVED_MEMORY, ChildName(i)], noise(ChildEnd(i)))
    ensures exists w' :: Reads(w, ReservedTokens(d, noise), w') && w'.path == [[]]
              && w'.info == w.info.(reserved := w.info.reserved + Sized(ChildEntries(d.rsvChildren)))
  {
    hide Reads, Fit, Sized, RoleOf, IsSeed, ChildrenTokens, ChildEntries, CellProps, Quiet, ChildName;
    var children, c := d.rsvChildren, RsvCellsOf(d);
    if !HasReserved(d) {
      NoChildren();
      assert w.info.reserved + [] == w.info.reserved;
      ReadsNone(w);
    } else {
      ReservedRole(0);
      var w1 := w.(path := [[], RESERVED_MEMORY], rac := w.ac, rsc := w.sc);
      EnterReserved(w);
      ReservedCellsRead(w1, d.rsvCells);
      var w2 := w1.(rac := c.0, rsc := c.1);
      ReadsIgnored(w2, RANGES, []);
      ReadsNoise(w2, noise(InReserved));
      ChildrenRead(w2, children, noise);
      var w3 := w2.(info := w2.info.(reserved := w2.info.reserved + Sized(ChildEntries(children))));
      var w4 := w3.(path := [[]]);
      assert w3.path == [[]] + [RESERVED_MEMORY];
      ReadsEnd(w3, [[]], RESERVED_MEMORY);
      var kids := ChildrenTokens(children, c.0, c.1, noise);
      var rest := kids + [EndNode];
      ReadsBoth(w2, kids, w3, [EndNode], w4);
      ReadsBoth(w2, noise(InReserved), w2, rest, w4);
      rest := noise(InReserved) + rest;
      ReadsBoth(w2, [Prop(RANGES, [])], w2, rest, w4);
      rest := [Prop(RANGES, [])] + rest;
      ReadsBoth(w1, CellProps(d.rsvCells), w2, rest, w4);
      ReadsBoth(w, [Begin(RESERVED_MEMORY)], w1, CellProps(d.rsvCells) + rest, w4);
    }
  }

  lemma NoChildren()
    ensures Sized(ChildEntries([])) == []
  {
  }

  lemma EnterReserved(w: Walker)
    requires w.path == [[]]
    ensures Reads(w, [Begin(RESERVED_MEMORY)], w.(path := [[], RESERVED_MEMORY], rac := w.ac, rsc := w.sc))
  {
    ReservedRole(0);
    assert w.path + [RESERVED_MEMORY] == [[], RESERVED_MEMORY];
    hide RoleOf, Reads;
    ReadsOne(w, Begin(RESERVED_MEMORY), w.(path := [[], RESERVED_MEMORY], rac := w.ac, rsc := w.sc));
  }

  // ---------------------------------------------------------------- the reservation block

  lemma {:induction false} RsvReads(rsv: Entries, acc: seq<Region>)
    requires Fit(BeforeEnd(rsv), 2, 2) && |acc| <= MAX_RSV_REGIONS
    ensures RsvList(rsv, acc) == AtMost(acc + Sized(BeforeEnd(rsv)), MAX_RSV_REGIONS)
    decreases |rsv|
  {
    if rsv == [] || rsv[0] == (0, 0) {
      assert acc + [] == acc;
    } else {
      var all := BeforeEnd(rsv);
      assert all[0] == rsv[0] && all[1..] == BeforeEnd(rsv[1..]);
      assert Fit(all[1..], 2, 2);
      var acc' := if rsv[0].1 == 0 then acc else acc + [Region(rsv[0].0, rsv[0].1)];
      assert acc + Sized(all) == acc' + Sized(all[1..]);
      if |acc'| <= MAX_RSV_REGIONS {
        RsvReads(rsv[1..], acc');
      }
    }
  }

  // ---------------------------------------------------------------- the board

  /** The path-based reading of a board's tokens, noise and all, is what the board says. */
  lemma BoardReads(d: Board, noise: Noise)
    requires WellFormed(d) && QuietNoise(d, noise)
    ensures var w := Starts(Sized(BeforeEnd(d.memreserve)));
            exists w' :: Reads(w, BoardTokens(d, noise), w') && w'.path == [] && w'.info == Expected(d)
  {
    hide Reads, Fit, Sized, CellProps, ChosenTokens, MemoriesTokens, ReservedTokens, IsSeed, Flatten, ChildEntries,
         BeforeEnd,
         QuietNoise, Quiet;
    var w := Starts(Sized(BeforeEnd(d.memreserve)));
    var c := RootCells(d);
    SizedAppend(BeforeEnd(d.memreserve), ChildEntries(d.rsvChildren));
    QuietSites(d, noise);
    var w1 := w.(path := [[]]);
    EnterRoot(w);
    RootCellsRead(w1, d.cells);
    var w2 := w1.(ac := c.0, sc := c.1);
    CompatibleName();
    ReadsIgnored(w2, COMPATIBLE, DUMMY_VIRT);
    ReadsNoise(w2, noise(InRoot));
    ChosenReads(w2, d, noise);
    var w3 := w2.(info := w2.info.(entropy := ExpectedEntropy(d)));
    MemoriesRead(w3, d.memory, noise);
    var w4 := w3.(info := w3.info.(memory := w3.info.memory + Sized(Flatten(d.memory))));
    assert [] + Sized(Flatten(d.memory)) == Sized(Flatten(d.memory));
    ReservedReads(w4, d, noise);
    var w5 :| Reads(w4, ReservedTokens(d, noise), w5) && w5.path == [[]]
              && w5.info == w4.info.(reserved := w4.info.reserved + Sized(ChildEntries(d.rsvChildren)));
    ReadsNoise(w5, noise(RootEnd));
    BoardParts(d, noise, w, w1, w2, w3, w4, w5);
  }

  /** The pieces of a board, read one after the other. */
  lemma BoardParts(d: Board, noise: Noise, w: Walker, w1: Walker, w2: Walker, w3: Walker, w4: Walker, w5: Walker)
    requires Reads(w, [Begin([])], w1) && Reads(w1, CellProps(d.cells), w2)
    requires Reads(w2, [Prop(COMPATIBLE, DUMMY_VIRT)], w2)
    requires Reads(w2, noise(InRoot), w2) && Reads(w2, ChosenTokens(d, noise), w3)
    requires Reads(w3, MemoriesTokens(d.memory, RootCells(d).0, RootCells(d).1, noise), w4)
    requires Reads(w4, ReservedTokens(d, noise), w5) && Reads(w5, noise(RootEnd), w5) && w5.path == [[]]
    ensures Reads(w, BoardTokens(d, noise), w5.(path := []))
  {
    hide Reads, CellProps, ChosenTokens, MemoriesTokens, ReservedTokens, RootCells;
    var c, w6 := RootCells(d), w5.(path := []);
    assert w5.path == [] + [[]];
    ReadsEnd(w5, [], []);
    var rest := noise(RootEnd) + [EndNode];
    ReadsBoth(w5, noise(RootEnd), w5, [EndNode], w6);
    ReadsBoth(w4, ReservedTokens(d, noise), w5, rest, w6);
    rest := ReservedTokens(d, noise) + rest;
    ReadsBoth(w3, MemoriesTokens(d.memory, c.0, c.1, noise), w4, rest, w6);
    rest := MemoriesTokens(d.memory, c.0, c.1, noise) + rest;
    ReadsBoth(w2, ChosenTokens(d, noise), w3, rest, w6);
    rest := ChosenTokens(d, noise) + rest;
    ReadsBoth(w2, noise(InRoot), w2, rest, w6);
    rest := noise(InRoot) + rest;
    ReadsBoth(w2, [Prop(COMPATIBLE, DUMMY_VIRT)], w2, rest, w6);
    rest := [Prop(COMPATIBLE, DUMMY_VIRT)] + rest;
    ReadsBoth(w1, CellProps(d.cells), w2, rest, w6);
    ReadsBoth(w, [Begin([])], w1, CellProps(d.cells) + rest, w6);
  }

  lemma QuietSites(d: Board, noise: Noise)
    requires QuietNoise(d, noise)
    ensures Quiet([[]], noise(InRoot)) && Quiet([[]], noise(RootEnd))
    ensures HasChosen(d) ==> Quiet([[], CHOSEN], noise(InChosen)) && Quiet([[], CHOSEN], noise(ChosenEnd))
    ensures HasReserved(d) ==> Quiet([[], RESERVED_MEMORY], noise(InReserved))
    ensures forall i :: 0 <= i < |d.memory| ==> MemoryNoise(i, d.memory[i], noise)
    ensures forall i: nat :: i < |d.rsvChildren| ==> Quiet([[], RESERVED_MEMORY, ChildName(i)], noise(ChildEnd(i)))
  {
    hide Quiet, MemoryName, ChildName;
    assert Visited(d, InRoot) && Visited(d, RootEnd);
    assert HasChosen(d) ==> Visited(d, InChosen) && Visited(d, ChosenEnd);
    assert HasReserved(d) ==> Visited(d, InReserved);
    forall i | 0 <= i < |d.memory|
      ensures MemoryNoise(i, d.memory[i], noise)
    {
      assert Visited(d, InMemory(i)) && Visited(d, MemoryEnd(i)) && Visited(d, AfterMemory(i));
    }
    forall i: nat | i < |d.rsvChildren|
      ensures Quiet([[], RESERVED_MEMORY, ChildName(i)], noise(ChildEnd(i)))
    {
      assert Visited(d, ChildEnd(i));
    }
  }

  lemma EnterRoot(w: Walker)
    requires w.path == []
    ensures Reads(w, [Begin([])], w.(path := [[]]))
  {
    assert w.path + [[]] == [[]];
    ReadsOne(w, Begin([]), w.(path := [[]]));
  }

  lemma CompatibleName()
    ensures NoNul(COMPATIBLE) && COMPATIBLE != REG && COMPATIBLE != ADDRESS_CELLS && COMPATIBLE != SIZE_CELLS
    ensures !IsSeed(COMPATIBLE)
  {
    assert COMPATIBLE[0] != KASLR_SEED[0];
  }

  /** The tokens of a board, or any with the same effects, mean the verdict on the board. */
  lemma BoardMeans(d: Board, noise: Noise, ts: seq<Token>)
    requires WellFormed(d) && QuietNoise(d, noise) && Rooted([], ts)
    requires Effects([], ts) == Effects([], BoardTokens(d, noise))
    ensures Meaning(d.memreserve, ts) == Verdict(d)
  {
    hide Fold, Leads, BoardTokens, Fit, Sized, BeforeEnd, RsvList, QuietNoise, Rooted, Effects, PathAfter, ActAll;
    var rs, board := Sized(BeforeEnd(d.memreserve)), BoardTokens(d, noise);
    SizedAppend(BeforeEnd(d.memreserve), ChildEntries(d.rsvChildren));
    RsvReads(d.memreserve, []);
    assert [] + rs == rs;
    BoardReads(d, noise);
    var w' :| Reads(Starts(rs), board, w') && w'.path == [] && w'.info == Expected(d);
    LeadsRooted([], board, []);
    FoldActs(Starts(rs), board);
    FoldActs(Starts(rs), ts);
  }

  lemma LeadsRooted(p: seq<Bytes>, ts: seq<Token>, q: seq<Bytes>)
    requires Leads(p, ts, q)
    ensures Rooted(p, ts) && Level(ts, |p|, |q|) && CleanNames(ts)
  {
  }

  /**
    Parsing the printed form of any well-formed board, with any quiet noise, returns exactly its memory,
    its reservations up to the first (0, 0), and its entropy up to 72 bytes, if and only if it has one to
    eight memory regions and at most eight reserved ones; otherwise it returns the error that says why.
  */
  lemma BoardRoundTrip(d: Board, noise: Noise)
    requires WellFormed(d) && QuietNoise(d, noise) && |Print(d.memreserve, BoardTokens(d, noise))| < 0x1_0000_0000
    ensures Parse(Print(d.memreserve, BoardTokens(d, noise))) == Verdict(d)
  {
    hide Fold, Leads, Print, Parse, BoardTokens, Fit, Sized, BeforeEnd, Meaning, QuietNoise, Rooted, Effects, Level,
         CleanNames;
    var board := BoardTokens(d, noise);
    BoardReads(d, noise);
    LeadsRooted([], board, []);
    BoardMeans(d, noise, board);
    PrintedIsRead(d.memreserve, board);
  }

  /** The same with noise anywhere: all that counts is that the tokens have the effects of the board's. */
  lemma AnyNoiseRoundTrip(d: Board, ts: seq<Token>)
    requires WellFormed(d) && Level(ts, 0, 0) && CleanNames(ts) && Rooted([], ts)
    requires Effects([], ts) == Effects([], BoardTokens(d, Silence())) && |Print(d.memreserve, ts)| < 0x1_0000_0000
    ensures Parse(Print(d.memreserve, ts)) == Verdict(d)
  {
    hide Level, CleanNames, Print, Parse, BoardTokens, Fit, Meaning, QuietNoise, Rooted, Effects;
    SilenceIsQuiet(d);
    BoardMeans(d, Silence(), ts);
    PrintedIsRead(d.memreserve, ts);
  }

  lemma SilenceIsQuiet(d: Board)
    ensures QuietNoise(d, Silence())
  {
    hide Quiet, SitePath, Visited;
    forall site | Visited(d, site)
      ensures Quiet(SitePath(d, site), Silence()(site))
    {
      SiteHasPath(d, site);
      QuietNothing(SitePath(d, site));
    }
  }

  lemma SiteHasPath(d: Board, site: Site)
    ensures SitePath(d, site) != []
  {
  }
}
