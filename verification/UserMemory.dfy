/** Physical memory behind the kernel alias: the frame window, the boot builder and the run-time walkers. */
module UserMemory {
  import opened Abi
  import opened Descriptors
  import opened Tables
  import opened Tallies
  import opened Paging
  import opened UserSpace

  function ClearRow(g: Granule): Table {
    seq(Entries(g), _ => 0)
  }

  /** Every granule handed out so far lies below the allocator's next frame. */
  ghost predicate AllBelow(mem: Mem, next: nat) {
    forall a :: a in mem ==> a < next
  }

  ghost predicate AllAbove(mem: Mem, start: nat) {
    forall a :: a in mem ==> start <= a
  }

  /** Clearing a granule that is no table leaves the forest and every translation alone. */
  lemma {:induction false} OtherGranuleTables(g: Granule, mem: Mem, sh: Shape, a: nat, row: Table, root: nat, va: nat,
                                              level: nat)
    requires Forest(g, mem, sh) && a !in sh.level && IsRoot(sh, root) && level <= 3
    ensures TableAt(g, mem[a := row], root, va, level) == TableAt(g, mem, root, va, level)
  {
    hide Forest, Index, AddrOf, TypeBits;
    if level > 0 {
      OtherGranuleTables(g, mem, sh, a, row, root, va, level - 1);
      LevelOf(g, mem, sh, root, va, level - 1);
    }
  }

  lemma OtherGranule(g: Granule, mem: Mem, sh: Shape, a: nat, row: Table)
    requires Forest(g, mem, sh) && a !in sh.level
    ensures Forest(g, mem[a := row], sh)
    ensures forall r, v :: IsRoot(sh, r) ==> Walk(g, mem[a := row], r, v) == Walk(g, mem, r, v)
  {
    OtherGranuleForest(g, mem, sh, a, row);
    hide Forest, Index;
    forall r, v | IsRoot(sh, r)
      ensures Walk(g, mem[a := row], r, v) == Walk(g, mem, r, v)
    {
      OtherGranuleTables(g, mem, sh, a, row, r, v, 3);
      LevelOf(g, mem, sh, r, v, 3);
    }
  }

  lemma OtherGranuleForest(g: Granule, mem: Mem, sh: Shape, a: nat, row: Table)
    requires Forest(g, mem, sh) && a !in sh.level
    ensures Forest(g, mem[a := row], sh)
  {
    hide AddrOf, Link, IsFrame, Entries;
  }

  class Phys {
    const g: Granule
    // Granules of physical memory the kernel reaches through its alias.
    var mem: Mem
    // The bump allocator over the boot frame window.
    const start: nat
    var next: nat
    const end: nat
    ghost var sh: Shape

    constructor (g: Granule, start: nat, end: nat)
      ensures this.g == g && this.start == start && this.end == end && next == start && mem == map[]
      ensures sh == Shape(map[], map[])
      ensures start % Size(g) == 0 && end % Size(g) == 0 && start < end <= TWO_48 ==> Booting()
    {
      this.g, this.start, this.end := g, start, end;
      next, mem, sh := start, map[], Shape(map[], map[]);
    }

    ghost predicate Booting()
      reads this
    {
      && next % Size(g) == 0 && next <= end <= TWO_48
      && AllBelow(mem, next) && AllAbove(mem, start) && start <= next
      && Forest(g, mem, sh)
    }

    /** `alloc_contig`: n cleared frames, or none at all. */
    method AllocContig(n: nat) returns (r: Result<nat, MmuError>)
      requires Booting()
      modifies this`mem, this`next
      ensures Booting()
      ensures r.Ok? <==> n > 0 && old(next) + n * Size(g) <= end
      ensures r.Err? ==> r.error == OutOfFrames && mem == old(mem) && next == old(next)
      ensures r.Ok? ==> r.value == old(next) && next == old(next) + n * Size(g)
      ensures r.Ok? ==> mem == ClearRange(g, old(mem), r.value, n)
    {
      hide Forest, Size;
      var len := n * Size(g);
      PositiveLength(g, n, next, end);
      if len >= TWO_64 || len == 0 || next + len >= TWO_64 || next + len > end {
        return Err(OutOfFrames);
      }
      var base := next;
      var i: nat := 0;
      while i < n
        invariant i <= n && next == base && mem == ClearRange(g, old(mem), base, i)
      {
        mem := mem[base + i * Size(g) := ClearRow(g)];
        i := i + 1;
      }
      ClearRangeOk(g, old(mem), sh, base, n);
      StillAligned(g, base, n);
      next := base + len;
      r := Ok(base);
    }

    /** `UserSpace::new`: an empty top-level table. */
    method NewSpace() returns (r: Result<nat, MmuError>)
      requires Booting()
      modifies this
      ensures Booting() && mem.Keys >= old(mem.Keys) && next >= old(next)
      ensures r.Err? ==> r.error == OutOfFrames && next == old(next) && next + Size(g) > end
      ensures r.Ok? ==> r.value == old(next) && IsRoot(sh, r.value) && next == r.value + Size(g)
      ensures r.Ok? ==> sh == Shape(old(sh).level[r.value := 0], old(sh).up)
      ensures forall a :: a in old(mem) ==> mem[a] == old(mem)[a]
      ensures r.Ok? ==> forall va :: Walk(g, mem, r.value, va) == 0
      ensures r.Ok? ==> SameTranslations(g, old(mem), mem, old(sh))
    {
      hide Forest, Walk, Size, ClearRange, SameTranslations;
      r := AllocContig(1);
      if r.Err? {
        return;
      }
      AtLeastOne(g, 1);
      ClearRangeOk(g, old(mem), sh, r.value, 1);
      NewRoot(g, old(mem), sh, r.value);
      sh := Shape(sh.level[r.value := 0], sh.up);
    }

    /** The builder's `map_page`: missing tables come from the frame window. */
    method BuildPage(root: nat, va: nat, pa: nat, attrs: nat) returns (r: Outcome)
      requires Booting() && IsRoot(sh, root)
      modifies this
      ensures Booting() && Grows(old(mem), old(sh), old(next), mem, sh, next)
      ensures r.Err? ==> r.error == OutOfFrames || r.error == Overlap
      ensures r == Err(Overlap) <==> Walk(g, old(mem), root, va) != 0
      ensures r == Err(OutOfFrames) <==>
                Walk(g, old(mem), root, va) == 0 && old(next) + Missing(g, old(mem), root, va) * Size(g) > end
      ensures r.Ok? ==> next == old(next) + Missing(g, old(mem), root, va) * Size(g)
      ensures r == Err(OutOfFrames) ==> next + Size(g) > end
      ensures r.Err? ==> SameTranslations(g, old(mem), mem, old(sh))
      ensures r.Ok? ==> MapsOne(g, old(mem), mem, sh, root, va, Leaf(pa, attrs))
      ensures r.Ok? ==> Grown(g, old(mem), mem, old(sh), root, va, 3)
    {
      hide Building, Forest, Walk, Index, Link, Leaf, AddrOf, TypeBits, Grows, MapsOne, SameTranslations, ClearRange,
           Size, Missing;
      hide Grown;
      ghost var mem0, sh0, next0 := mem, sh, next;
      var t, level: nat := root, 0;
      BuildStart(g, mem, sh, next, root, va);
      GrownStart(g, mem, sh, root, va);
      while level < 3
        invariant level <= 3 && Booting()
        invariant Building(g, mem0, sh0, next0, mem, sh, next, root, va, level, t)
        invariant next + Missing(g, mem, root, va) * Size(g) == next0 + Missing(g, mem0, root, va) * Size(g)
        invariant Grown(g, mem0, mem, sh0, root, va, level)
      {
        BuildFacts(g, mem0, sh0, next0, mem, sh, next, root, va, level, t);
        var i := Index(g, va, level);
        var entry := mem[t][i];
        if entry == 0 {
          ghost var mem1, next1 := mem, next;
          var child := AllocContig(1);
          if child.Err? {
            BuildStops(g, mem0, sh0, next0, mem, sh, next, root, va, level, t);
            AtLeastOne(g, Missing(g, mem, root, va));
            return Err(child.error);
          }
          BuildLinks(g, mem0, sh0, next0, mem1, sh, next1, root, va, level, t);
          LinkSpends(g, mem0, sh0, next0, mem1, sh, next1, root, va, level, t);
          LinkMakes(g, mem0, sh0, next0, mem1, sh, next1, root, va, level, t);
          StepSize(g, Missing(g, mem1, root, va));
          mem := SetEntry(mem, t, i, Link(child.value));
          sh := Linked(sh, t, i, child.value);
          t := child.value;
        } else if TypeBits(entry) == 3 {
          t := AddrOf(g, entry);
          BuildFinds(g, mem0, sh0, next0, mem, sh, next, root, va, level, t);
        } else {
          return Err(BadTable);
        }
        level := level + 1;
      }
      BuildEnds(g, mem0, sh0, next0, mem, sh, next, root, va, t, Leaf(pa, attrs));
      var i := Index(g, va, 3);
      if mem[t][i] != 0 {
        return Err(Overlap);
      }
      LeafMakes(g, mem0, sh0, next0, mem, sh, next, root, va, t, Leaf(pa, attrs));
      mem := SetEntry(mem, t, i, Leaf(pa, attrs));
      r := Ok(());
    }

    /** The builder's `map_range`. */
    method BuildRange(root: nat, va: nat, pa: nat, len: nat, perm: UserPerm) returns (r: Outcome)
      requires Booting() && IsRoot(sh, root)
      modifies this
      ensures Booting() && Grows(old(mem), old(sh), old(next), mem, sh, next)
      ensures r.Ok? ==> RangeArgs(g, va, pa, len).Ok?
      ensures r.Err? ==> r == RangeArgs(g, va, pa, len) || r.error == OutOfFrames || r.error == Overlap
      ensures RangeArgs(g, va, pa, len).Err? ==> r == RangeArgs(g, va, pa, len)
      ensures r.Ok? ==> MapsRange(g, old(mem), mem, sh, root, va, pa, len / Size(g), UserAttrs(perm))
      ensures r.Ok? ==> forall k: nat :: k < len / Size(g) ==> Walk(g, old(mem), root, va + k * Size(g)) == 0
      ensures r == Err(Overlap) ==>
                exists k: nat :: k * Size(g) < len && Walk(g, old(mem), root, va + k * Size(g)) != 0
      ensures r == Err(OutOfFrames) ==> next + Size(g) > end
      ensures forall made: Keys, spent: nat :: Funded(g, old(mem), old(sh), old(next), spent, made) ==>
                RangePaid(g, mem, sh, next, end, spent, made, root, va, len / Size(g), r)
    {
      hide Forest, Walk, Leaf, MapsOne, MapsRange, UserAttrs, Page, Size, Grows, Missing, Grown, Funded,
           RangeKeys, RangePaid;
      GrowsRefl(mem, sh, next);
      RangeFunded(g, mem, sh, next, root, va);
      RangeStart(g, mem, sh, root, va, pa, UserAttrs(perm));
      var args := RangeArgs(g, va, pa, len);
      if args.Err? {
        ArgsUnpaid(g, mem, sh, next, end, root, va, len, args);
        return args;
      }
      RangeLow(g, va, pa, len);
      var attrs := UserAttrs(perm);
      var off: nat := 0;
      ghost var n: nat := 0;
      while off < len
        invariant Booting() && IsRoot(sh, root)
        invariant Grows(old(mem), old(sh), old(next), mem, sh, next)
        invariant off == n * Size(g) && off <= len && (len - off) % Size(g) == 0
        invariant MapsRange(g, old(mem), mem, sh, root, va, pa, n, attrs)
        invariant forall k: nat :: k < n ==> Walk(g, old(mem), root, va + k * Size(g)) == 0
        invariant forall made: Keys, spent: nat :: Funded(g, old(mem), old(sh), old(next), spent, made) ==>
                    Funded(g, mem, sh, next, spent, made + RangeKeys(g, root, va, n))
        decreases len - off
      {
        ghost var mem1, sh1, next1 := mem, sh, next;
        r := BuildPage(root, va + off, pa + off, attrs);
        GrowsTrans(old(mem), old(sh), old(next), mem1, sh1, next1, mem, sh, next, root);
        StepFits(g, va, off, len, n);
        NextPage(g, old(mem), mem1, sh1, root, va, pa, n, attrs);
        MoreToGo(g, n, len);
        PagePaid(g, old(mem), old(sh), old(next), mem1, sh1, next1, mem, sh, next, end, root, va, n, len / Size(g), r);
        if r.Err? {
          return;
        }
        RangeExtends(g, old(mem), mem1, mem, sh1, sh, root, va, pa, n, attrs);
        off := off + Size(g);
        n := n + 1;
      }
      Quotient(g, n, len);
      r := Ok(());
      AllPaid(g, old(mem), old(sh), old(next), mem, sh, next, end, root, va, n);
    }

    /** `user_map_frame`: the run-time walk to a leaf, which never makes a table. */
    method UserMapFrame(root: nat, va: nat, pa: nat, perm: UserPerm) returns (r: Outcome)
      modifies this`mem
      ensures var after := MapFrame(g, old(mem), root, va, pa, perm);
              if after.Ok? then r == Ok(()) && mem == after.value else r == Err(after.error) && mem == old(mem)
    {
      hide Index, Leaf, AddrOf, TypeBits, UserAttrs, Size, PutEntry, Entry;
      var args := FrameArgs(g, va, pa);
      if args.Err? {
        return args;
      }
      var t, level: nat := root, 0;
      while level < 3
        invariant level <= 3 && mem == old(mem)
        invariant Follow(g, mem, root, va, 0) == Follow(g, mem, t, va, level)
      {
        var entry := Entry(mem, t, Index(g, va, level));
        if entry == 0 {
          return Err(MissingTable);
        }
        if TypeBits(entry) != 3 {
          return Err(BadTable);
        }
        t := AddrOf(g, entry);
        level := level + 1;
      }
      if Entry(mem, t, Index(g, va, 3)) != 0 {
        return Err(Overlap);
      }
      mem := PutEntry(mem, t, Index(g, va, 3), Leaf(pa, UserAttrs(perm)));
      r := Ok(());
    }

    /** `user_install_table`: hang the table into the first gap of the path. */
    method UserInstallTable(root: nat, va: nat, table: nat) returns (r: Outcome)
      modifies this`mem
      ensures var after := InstallTable(g, old(mem), root, va, table);
              if after.Ok? then r == Ok(()) && mem == after.value else r == Err(after.error) && mem == old(mem)
    {
      hide Index, Link, AddrOf, TypeBits, Size, PutEntry, Entry;
      if table % Size(g) != 0 || va >= TWO_48 {
        return Err(Misaligned);
      }
      var t, level: nat := root, 0;
      while level < 3
        invariant level <= 3 && mem == old(mem)
        invariant FirstGap(g, mem, root, va, 0) == FirstGap(g, mem, t, va, level)
      {
        var entry := Entry(mem, t, Index(g, va, level));
        if entry == 0 {
          mem := PutEntry(mem, t, Index(g, va, level), Link(table));
          return Ok(());
        }
        if TypeBits(entry) != 3 {
          return Err(BadTable);
        }
        t := AddrOf(g, entry);
        level := level + 1;
      }
      r := Err(Overlap);
    }
  }

  /** `FrameAlloc::new`. */
  method OpenFrames(g: Granule, start: nat, end: nat) returns (r: Result<Phys, MmuError>)
    ensures r == Err(Misaligned) <==> start % Size(g) != 0 || end % Size(g) != 0 || end <= start
    ensures r.Err? ==> r.error == Misaligned
    ensures r.Ok? ==> fresh(r.value) && r.value.g == g && r.value.start == start && r.value.end == end
    ensures r.Ok? ==> r.value.next == start && r.value.mem == map[] && r.value.sh == Shape(map[], map[])
    ensures r.Ok? && end <= TWO_48 ==> r.value.Booting()
  {
    if start % Size(g) != 0 || end % Size(g) != 0 || end <= start {
      return Err(Misaligned);
    }
    var phys := new Phys(g, start, end);
    r := Ok(phys);
  }

  /** Memory with n granules from `base` cleared. */
  function ClearRange(g: Granule, mem: Mem, base: nat, n: nat): Mem {
    if n == 0 then mem else ClearRange(g, mem, base, n - 1)[base + (n - 1) * Size(g) := ClearRow(g)]
  }

  /** Clearing unused granules keeps the forest and every translation, and touches nothing else. */
  lemma {:induction false} ClearRangeOk(g: Granule, mem: Mem, sh: Shape, base: nat, n: nat)
    requires Forest(g, mem, sh) && AllBelow(mem, base)
    ensures var mem' := ClearRange(g, mem, base, n);
            && Forest(g, mem', sh) && AllBelow(mem', base + n * Size(g))
            && (forall r, v :: IsRoot(sh, r) ==> Walk(g, mem', r, v) == Walk(g, mem, r, v))
            && (forall a :: a in mem ==> a in mem' && mem'[a] == mem[a])
            && (forall a :: a in mem' && a !in mem ==> base <= a < base + n * Size(g) && mem'[a] == ClearRow(g))
  {
    hide Forest, Walk, Size, IsRoot, ClearRow;
    if n > 0 {
      ClearRangeOk(g, mem, sh, base, n - 1);
      var mid, a := ClearRange(g, mem, base, n - 1), base + (n - 1) * Size(g);
      NotATable(g, mid, sh, a);
      OtherGranule(g, mid, sh, a, ClearRow(g));
      StepSize(g, n);
    }
  }

  lemma StepSize(g: Granule, n: nat)
    requires n > 0
    ensures n * Size(g) == (n - 1) * Size(g) + Size(g)
  {
  }

  lemma {:induction false} ClearRangeHas(g: Granule, mem: Mem, base: nat, n: nat, i: nat)
    requires i < n
    ensures base + i * Size(g) in ClearRange(g, mem, base, n)
  {
    hide Size, ClearRow;
    if i < n - 1 {
      ClearRangeHas(g, mem, base, n - 1, i);
    }
  }

  lemma NotATable(g: Granule, mem: Mem, sh: Shape, a: nat)
    requires Forest(g, mem, sh) && AllBelow(mem, a)
    ensures a !in sh.level && a !in mem
  {
  }

  lemma PositiveLength(g: Granule, n: nat, next: nat, end: nat)
    requires end <= TWO_48
    ensures n > 0 <==> n * Size(g) > 0
    ensures next + n * Size(g) <= end ==> n * Size(g) < TWO_64 && next + n * Size(g) < TWO_64
  {
  }

  lemma StillAligned(g: Granule, base: nat, n: nat)
    requires base % Size(g) == 0
    ensures (base + n * Size(g)) % Size(g) == 0
  {
    match g
    case K4 => assert base + n * 4096 == 4096 * (base / 4096 + n);
    case K16 => assert base + n * 16384 == 16384 * (base / 16384 + n);
  }

  // ---------------------------------------------------------------- the builder's walk

  ghost predicate SameTranslations(g: Granule, a: Mem, b: Mem, sh: Shape) {
    forall r, v :: IsRoot(sh, r) ==> Walk(g, b, r, v) == Walk(g, a, r, v)
  }

  /** Only tables are written; new tables are frames handed out meanwhile; roots stay roots. */
  ghost predicate Grows(mem0: Mem, sh0: Shape, next0: nat, mem: Mem, sh: Shape, next: nat) {
    && mem0.Keys <= mem.Keys && next0 <= next
    && SameRoots(sh0, sh)
    && (forall a :: a in sh0.level ==> a in sh.level)
    && (forall a :: a in sh.level ==> a in sh0.level || next0 <= a < next)
    && (forall a :: a in mem0 && a !in sh.level ==> mem[a] == mem0[a])
  }

  ghost predicate Building(g: Granule, mem0: Mem, sh0: Shape, next0: nat, mem: Mem, sh: Shape, next: nat,
                           root: nat, va: nat, level: nat, t: nat)
    requires level <= 3
  {
    && Forest(g, mem0, sh0) && Forest(g, mem, sh) && IsRoot(sh0, root) && AllBelow(mem, next)
    && Grows(mem0, sh0, next0, mem, sh, next)
    && SameTranslations(g, mem0, mem, sh0)
    && TableAt(g, mem, root, va, level) == Some(t)
  }

  /** The argument checks of the builder's `map_range`. */
  function RangeArgs(g: Granule, va: nat, pa: nat, len: nat): Outcome {
    if va % Size(g) != 0 || pa % Size(g) != 0 || len % Size(g) != 0 || len == 0 then Err(Misaligned)
    else if va < Size(g) then Err(NullPage)
    else if va + len > TWO_48 then Err(Misaligned)
    else Ok(())
  }

  /** After a range of n pages: its tables are paid for, or the window could not have paid for them. */
  ghost predicate RangePaid(g: Granule, mem: Mem, sh: Shape, next: nat, end: nat, spent: nat, made: Keys,
                            root: nat, va: nat, n: nat, r: Outcome) {
    && (r.Ok? ==> Funded(g, mem, sh, next, spent, made + RangeKeys(g, root, va, n)))
    && (r == Err(OutOfFrames) ==> spent + |made + RangeKeys(g, root, va, n)| * Size(g) > end)
  }

  lemma RangeFunded(g: Granule, mem: Mem, sh: Shape, next: nat, root: nat, va: nat)
    ensures forall made: Keys, spent: nat :: Funded(g, mem, sh, next, spent, made) ==>
              Funded(g, mem, sh, next, spent, made + RangeKeys(g, root, va, 0))
  {
    hide Tally, Size;
    forall made: Keys
      ensures made + RangeKeys(g, root, va, 0) == made
    {
    }
  }

  lemma ArgsUnpaid(g: Granule, mem: Mem, sh: Shape, next: nat, end: nat, root: nat, va: nat, len: nat, r: Outcome)
    requires r.Err? && r.error != OutOfFrames
    ensures forall made: Keys, spent: nat :: RangePaid(g, mem, sh, next, end, spent, made, root, va, len / Size(g), r)
  {
    hide Funded, RangeKeys;
  }

  lemma MoreToGo(g: Granule, n: nat, len: nat)
    requires n * Size(g) < len && (len - n * Size(g)) % Size(g) == 0
    ensures n + 1 <= len / Size(g)
  {
  }

  lemma AllPaid(g: Granule, mem0: Mem, sh0: Shape, next0: nat, mem: Mem, sh: Shape, next: nat, end: nat, root: nat,
                va: nat, n: nat)
    requires forall made: Keys, spent: nat :: Funded(g, mem0, sh0, next0, spent, made) ==>
               Funded(g, mem, sh, next, spent, made + RangeKeys(g, root, va, n))
    ensures forall made: Keys, spent: nat :: Funded(g, mem0, sh0, next0, spent, made) ==>
              RangePaid(g, mem, sh, next, end, spent, made, root, va, n, Ok(()))
  {
    hide Funded, RangeKeys;
  }

  /** One more page of a range: paid for, or one too many. */
  lemma PagePaid(g: Granule, mem0: Mem, sh0: Shape, next0: nat, mem1: Mem, sh1: Shape, next1: nat, mem: Mem, sh: Shape,
                 next: nat, end: nat, root: nat, va: nat, n: nat, all: nat, r: Outcome)
    requires IsRoot(sh1, root) && n + 1 <= all
    requires forall made: Keys, spent: nat :: Funded(g, mem0, sh0, next0, spent, made) ==>
               Funded(g, mem1, sh1, next1, spent, made + RangeKeys(g, root, va, n))
    requires r == Err(OutOfFrames) ==> next1 + Missing(g, mem1, root, va + n * Size(g)) * Size(g) > end
    requires r.Ok? ==>
               && Grown(g, mem1, mem, sh1, root, va + n * Size(g), 3) && SameRoots(sh1, sh)
               && next == next1 + Missing(g, mem1, root, va + n * Size(g)) * Size(g)
    ensures r.Ok? ==> forall made: Keys, spent: nat :: Funded(g, mem0, sh0, next0, spent, made) ==>
              Funded(g, mem, sh, next, spent, made + RangeKeys(g, root, va, n + 1))
    ensures r.Err? ==> forall made: Keys, spent: nat :: Funded(g, mem0, sh0, next0, spent, made) ==>
              RangePaid(g, mem, sh, next, end, spent, made, root, va, all, r)
  {
    hide Funded, RangeKeys, Grown, Missing, Size, IsRoot;
    forall made: Keys, spent: nat | Funded(g, mem0, sh0, next0, spent, made)
      ensures r.Ok? ==> Funded(g, mem, sh, next, spent, made + RangeKeys(g, root, va, n + 1))
      ensures r.Err? ==> RangePaid(g, mem, sh, next, end, spent, made, root, va, all, r)
    {
      if r.Ok? {
        FundedGrows(g, mem1, mem, sh1, next1, spent, root, va, n, made);
        SameRootsFunded(g, mem, sh1, sh, next, spent, made + RangeKeys(g, root, va, n + 1));
      } else {
        FundedShort(g, mem1, sh1, next1, spent, root, va, n, made);
        MoreKeys(g, root, va, n + 1, all, made);
      }
    }
  }

  lemma RangeLow(g: Granule, va: nat, pa: nat, len: nat)
    requires RangeArgs(g, va, pa, len).Ok?
    ensures va % TWO_48 + len <= TWO_48 && len % Size(g) == 0
  {
  }

  lemma Quotient(g: Granule, n: nat, len: nat)
    requires len == n * Size(g)
    ensures len / Size(g) == n
  {
  }

  lemma GrowsRefl(mem: Mem, sh: Shape, next: nat)
    ensures Grows(mem, sh, next, mem, sh, next)
  {
  }

  lemma GrowsTrans(mem0: Mem, sh0: Shape, next0: nat, mem1: Mem, sh1: Shape, next1: nat, mem2: Mem, sh2: Shape,
                   next2: nat, root: nat)
    requires Grows(mem0, sh0, next0, mem1, sh1, next1) && Grows(mem1, sh1, next1, mem2, sh2, next2) && IsRoot(sh1, root)
    ensures Grows(mem0, sh0, next0, mem2, sh2, next2) && IsRoot(sh2, root) && SameRoots(sh1, sh2)
  {
    hide IsRoot;
  }

  lemma BuildStart(g: Granule, mem: Mem, sh: Shape, next: nat, root: nat, va: nat)
    requires Forest(g, mem, sh) && IsRoot(sh, root) && AllBelow(mem, next)
    ensures Building(g, mem, sh, next, mem, sh, next, root, va, 0, root)
  {
    hide Forest, Walk;
  }

  lemma BuildFacts(g: Granule, mem0: Mem, sh0: Shape, next0: nat, mem: Mem, sh: Shape, next: nat, root: nat, va: nat,
                   level: nat, t: nat)
    requires level < 3 && Building(g, mem0, sh0, next0, mem, sh, next, root, va, level, t)
    ensures t in mem && |mem[t]| == Entries(g) && t in sh.level && sh.level[t] == level
    ensures var e := mem[t][Index(g, va, level)];
            && (e != 0 ==> TypeBits(e) == 3)
            && (e != 0 ==> Building(g, mem0, sh0, next0, mem, sh, next, root, va, level + 1, AddrOf(g, e)))
  {
    hide Forest, Walk, Index, AddrOf, TypeBits, SameTranslations;
    LevelOf(g, mem, sh, root, va, level);
    EntryOk(g, mem, sh, t, Index(g, va, level));
  }

  lemma BuildStops(g: Granule, mem0: Mem, sh0: Shape, next0: nat, mem: Mem, sh: Shape, next: nat, root: nat, va: nat,
                   level: nat, t: nat)
    requires level < 3 && Building(g, mem0, sh0, next0, mem, sh, next, root, va, level, t)
    requires t in mem && Index(g, va, level) < |mem[t]| && mem[t][Index(g, va, level)] == 0
    ensures Grows(mem0, sh0, next0, mem, sh, next) && SameTranslations(g, mem0, mem, sh0)
    ensures Walk(g, mem0, root, va) == 0 && Missing(g, mem, root, va) > 0
  {
    hide Forest, Index, Missing;
    LevelOf(g, mem, sh, root, va, level);
    MissingIs(g, mem, root, va, level);
    hide Walk;
    assert Walk(g, mem, root, va) == Walk(g, mem0, root, va);
  }

  lemma BuildLinks(g: Granule, mem0: Mem, sh0: Shape, next0: nat, mem: Mem, sh: Shape, next: nat, root: nat, va: nat,
                   level: nat, t: nat)
    requires level < 3 && Building(g, mem0, sh0, next0, mem, sh, next, root, va, level, t) && IsFrame(g, next)
    requires t in mem && |mem[t]| == Entries(g) && t in sh.level && sh.level[t] == level
    requires mem[t][Index(g, va, level)] == 0
    ensures var mem1, i := ClearRange(g, mem, next, 1), Index(g, va, level);
            && t in mem1 && |mem1[t]| == Entries(g)
            && Forest(g, SetEntry(mem1, t, i, Link(next)), Linked(sh, t, i, next))
            && AllBelow(SetEntry(mem1, t, i, Link(next)), next + Size(g))
            && Building(g, mem0, sh0, next0, SetEntry(mem1, t, i, Link(next)), Linked(sh, t, i, next), next + Size(g),
                        root, va, level + 1, next)
  {
    hide Forest, Walk, Index, Link, IsFrame, Grows, SameTranslations, Size, Entries, TableAt;
    var mem1, i := ClearRange(g, mem, next, 1), Index(g, va, level);
    GrowsRoots(mem0, sh0, next0, mem, sh, next, root);
    FreshFrame(g, mem, sh, next);
    OtherGranuleTables(g, mem, sh, next, ClearRow(g), root, va, level);
    LinkKeepsForest(g, mem1, sh, t, i, next);
    LinkTables(g, mem1, sh, t, i, next, root, va, level + 1);
    LevelOf(g, mem1, sh, root, va, level);
    LinkGrows(g, mem0, sh0, next0, mem, sh, next, t, i);
    LinkTranslates(g, mem0, sh0, mem, sh, next, t, i);
  }

  /** Each link takes one frame and closes one gap. */
  lemma LinkSpends(g: Granule, mem0: Mem, sh0: Shape, next0: nat, mem: Mem, sh: Shape, next: nat, root: nat, va: nat,
                   level: nat, t: nat)
    requires level < 3 && Building(g, mem0, sh0, next0, mem, sh, next, root, va, level, t) && IsFrame(g, next)
    requires t in mem && |mem[t]| == Entries(g) && t in sh.level && sh.level[t] == level
    requires mem[t][Index(g, va, level)] == 0
    ensures var mem1, i := ClearRange(g, mem, next, 1), Index(g, va, level);
            && t in mem1 && |mem1[t]| == Entries(g) && Missing(g, mem, root, va) > 0
            && Missing(g, SetEntry(mem1, t, i, Link(next)), root, va) == Missing(g, mem, root, va) - 1
  {
    hide Forest, Walk, Index, Link, IsFrame, Grows, SameTranslations, Size, Entries, Missing;
    var mem1 := ClearRange(g, mem, next, 1);
    GrowsRoots(mem0, sh0, next0, mem, sh, next, root);
    FreshFrame(g, mem, sh, next);
    OtherGranuleTables(g, mem, sh, next, ClearRow(g), root, va, level);
    OtherGranuleTables(g, mem, sh, next, ClearRow(g), root, va, level + 1);
    MissingIs(g, mem, root, va, level);
    MissingIs(g, mem1, root, va, level);
    hide FreshTable, TableAt;
    GapCloses(g, mem1, sh, root, va, t, level, next);
  }

  /** The new link makes the next table on the way to `va`, and no other. */
  lemma LinkMakes(g: Granule, mem0: Mem, sh0: Shape, next0: nat, mem: Mem, sh: Shape, next: nat, root: nat, va: nat,
                  level: nat, t: nat)
    requires level < 3 && Building(g, mem0, sh0, next0, mem, sh, next, root, va, level, t) && IsFrame(g, next)
    requires t in mem && |mem[t]| == Entries(g) && t in sh.level && sh.level[t] == level
    requires mem[t][Index(g, va, level)] == 0 && Grown(g, mem0, mem, sh0, root, va, level)
    ensures var mem1, i := ClearRange(g, mem, next, 1), Index(g, va, level);
            && t in mem1 && |mem1[t]| == Entries(g)
            && Grown(g, mem0, SetEntry(mem1, t, i, Link(next)), sh0, root, va, level + 1)
  {
    hide Forest, Walk, Index, Link, IsFrame, SameTranslations, Size, Entries, Grown;
    var mem1 := ClearRange(g, mem, next, 1);
    GrowsRoots(mem0, sh0, next0, mem, sh, next, root);
    hide Grows;
    FreshFrame(g, mem, sh, next);
    GrownSameRoots(g, mem0, mem, sh0, sh, root, va, level);
    GrownCleared(g, mem0, mem, sh, root, va, level, next);
    OtherGranuleTables(g, mem, sh, next, ClearRow(g), root, va, level);
    hide FreshTable, TableAt;
    GrownLinks(g, mem0, mem1, sh, root, va, level, t, next);
    GrownSameRoots(g, mem0, SetEntry(mem1, t, Index(g, va, level), Link(next)), sh, sh0, root, va, level + 1);
  }

  lemma GrownCleared(g: Granule, mem0: Mem, mem: Mem, sh: Shape, root: nat, va: nat, level: nat, a: nat)
    requires level <= 3 && Grown(g, mem0, mem, sh, root, va, level) && Forest(g, mem, sh) && a !in sh.level
    ensures Grown(g, mem0, mem[a := ClearRow(g)], sh, root, va, level)
  {
    hide Forest, TableAt, Trail;
    forall r, v, k: nat | k <= 3 && IsRoot(sh, r)
      ensures TableAt(g, mem[a := ClearRow(g)], r, v, k) == TableAt(g, mem, r, v, k)
    {
      OtherGranuleTables(g, mem, sh, a, ClearRow(g), r, v, k);
    }
  }

  lemma BuildFinds(g: Granule, mem0: Mem, sh0: Shape, next0: nat, mem: Mem, sh: Shape, next: nat, root: nat, va: nat,
                   level: nat, t: nat)
    requires level < 3 && Building(g, mem0, sh0, next0, mem, sh, next, root, va, level + 1, t)
    requires Grown(g, mem0, mem, sh0, root, va, level)
    ensures Grown(g, mem0, mem, sh0, root, va, level + 1)
  {
    hide Forest, Walk, Grows, Grown, TableAt;
    GrownFollows(g, mem0, mem, sh0, root, va, level);
  }

  lemma LeafMakes(g: Granule, mem0: Mem, sh0: Shape, next0: nat, mem: Mem, sh: Shape, next: nat, root: nat, va: nat,
                  t: nat, leaf: nat)
    requires Building(g, mem0, sh0, next0, mem, sh, next, root, va, 3, t) && Grown(g, mem0, mem, sh0, root, va, 3)
    requires t in mem && |mem[t]| == Entries(g)
    ensures Grown(g, mem0, SetEntry(mem, t, Index(g, va, 3), leaf), sh0, root, va, 3)
  {
    hide Forest, Walk, Grown, TableAt, Index;
    GrowsRoots(mem0, sh0, next0, mem, sh, next, root);
    LevelOf(g, mem, sh, root, va, 3);
    GrownSameRoots(g, mem0, mem, sh0, sh, root, va, 3);
    GrownLeaf(g, mem0, mem, sh, root, va, t, Index(g, va, 3), leaf);
    GrownSameRoots(g, mem0, SetEntry(mem, t, Index(g, va, 3), leaf), sh, sh0, root, va, 3);
  }

  lemma AtLeastOne(g: Granule, n: nat)
    requires n > 0
    ensures n * Size(g) >= 1 * Size(g) && Size(g) > 0
  {
  }

  lemma GrowsRoots(mem0: Mem, sh0: Shape, next0: nat, mem: Mem, sh: Shape, next: nat, root: nat)
    requires Grows(mem0, sh0, next0, mem, sh, next) && IsRoot(sh0, root)
    ensures SameRoots(sh0, sh) && IsRoot(sh, root)
  {
  }

  lemma FreshFrame(g: Granule, mem: Mem, sh: Shape, next: nat)
    requires Forest(g, mem, sh) && AllBelow(mem, next) && IsFrame(g, next)
    ensures next !in mem && next !in sh.level
    ensures var mem1 := ClearRange(g, mem, next, 1);
            && mem1 == mem[next := ClearRow(g)] && Forest(g, mem1, sh) && FreshTable(g, mem1, sh, next)
            && SameTranslations(g, mem, mem1, sh)
  {
    hide Forest, Walk, IsFrame;
    assert ClearRange(g, mem, next, 1) == mem[next := ClearRow(g)] by {
      assert ClearRange(g, mem, next, 0) == mem;
    }
    NotATable(g, mem, sh, next);
    OtherGranule(g, mem, sh, next, ClearRow(g));
  }

  lemma LinkGrows(g: Granule, mem0: Mem, sh0: Shape, next0: nat, mem: Mem, sh: Shape, next: nat, t: nat, i: nat)
    requires Grows(mem0, sh0, next0, mem, sh, next) && AllBelow(mem, next) && next !in sh.level && next !in mem
    requires t in sh.level && t in mem && i < |mem[t]|
    ensures var mem1 := mem[next := ClearRow(g)];
            && Grows(mem0, sh0, next0, SetEntry(mem1, t, i, Link(next)), Linked(sh, t, i, next), next + Size(g))
            && AllBelow(SetEntry(mem1, t, i, Link(next)), next + Size(g))
  {
    hide Link, ClearRow;
    LinkedRoots(sh, t, i, next);
  }

  lemma LinkTranslates(g: Granule, mem0: Mem, sh0: Shape, mem: Mem, sh: Shape, next: nat, t: nat, i: nat)
    requires Forest(g, mem, sh) && AllBelow(mem, next) && IsFrame(g, next) && SameTranslations(g, mem0, mem, sh0)
    requires t in sh.level && sh.level[t] < 3 && t in mem && i < |mem[t]| && mem[t][i] == 0 && SameRoots(sh0, sh)
    ensures var mem1 := ClearRange(g, mem, next, 1);
            && t in mem1 && |mem1[t]| == |mem[t]|
            && SameTranslations(g, mem0, SetEntry(mem1, t, i, Link(next)), sh0)
  {
    hide Forest, Walk, Link, IsFrame, FreshTable;
    FreshFrame(g, mem, sh, next);
    var mem1 := ClearRange(g, mem, next, 1);
    forall r, v | IsRoot(sh0, r)
      ensures Walk(g, SetEntry(mem1, t, i, Link(next)), r, v) == Walk(g, mem0, r, v)
    {
      LinkKeepsWalk(g, mem1, sh, t, i, next, r, v);
      assert Walk(g, mem1, r, v) == Walk(g, mem, r, v);
    }
  }

  lemma BuildEnds(g: Granule, mem0: Mem, sh0: Shape, next0: nat, mem: Mem, sh: Shape, next: nat, root: nat, va: nat,
                  t: nat, leaf: nat)
    requires Building(g, mem0, sh0, next0, mem, sh, next, root, va, 3, t)
    ensures t in mem && |mem[t]| == Entries(g)
    ensures Grows(mem0, sh0, next0, mem, sh, next) && SameTranslations(g, mem0, mem, sh0)
    ensures Walk(g, mem0, root, va) == mem[t][Index(g, va, 3)] && Missing(g, mem, root, va) == 0
    ensures var mem' := SetEntry(mem, t, Index(g, va, 3), leaf);
            && Forest(g, mem', sh) && AllBelow(mem', next)
            && Grows(mem0, sh0, next0, mem', sh, next) && MapsOne(g, mem0, mem', sh, root, va, leaf)
  {
    hide Forest, Index, Page;
    LeafChangesOnePage(g, mem, sh, root, va, leaf);
    MissingBounds(g, mem, root, va);
    hide Missing;
    assert Walk(g, mem, root, va) == Walk(g, mem0, root, va);
  }

  /** A cleared frame as the top of a new, empty address space. */
  lemma NewRoot(g: Granule, mem: Mem, sh: Shape, next: nat)
    requires Forest(g, mem, sh) && AllBelow(mem, next) && IsFrame(g, next)
    ensures var mem', sh' := ClearRange(g, mem, next, 1), Shape(sh.level[next := 0], sh.up);
            && Forest(g, mem', sh') && IsRoot(sh', next) && next !in sh.level
            && (forall va :: Walk(g, mem', next, va) == 0)
            && SameTranslations(g, mem, mem', sh)
  {
    hide Walk, IsFrame;
    var mem' := mem[next := ClearRow(g)];
    FreshFrame(g, mem, sh, next);
    RootForest(g, mem', sh, next);
    hide Forest;
    forall va
      ensures Walk(g, mem', next, va) == 0
    {
      EmptyRoot(g, mem', next, va);
    }
  }

  lemma RootForest(g: Granule, mem: Mem, sh: Shape, a: nat)
    requires Forest(g, mem, sh) && a !in sh.level && a in mem && mem[a] == ClearRow(g) && IsFrame(g, a)
    ensures Forest(g, mem, Shape(sh.level[a := 0], sh.up))
  {
    hide AddrOf, Link, IsFrame;
    var sh' := Shape(sh.level[a := 0], sh.up);
    forall t, i | t in sh'.level && sh'.level[t] < 3 && 0 <= i < |mem[t]| && mem[t][i] != 0
      ensures GoodLink(g, sh', t, i, mem[t][i])
    {
      assert GoodLink(g, sh, t, i, mem[t][i]);
    }
  }
}
