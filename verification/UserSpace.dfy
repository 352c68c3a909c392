/**
  The user half of the address space: the run-time walkers, which never allocate a table, and the
  boot builder, which takes tables from the boot frame window.
*/
module UserSpace {
  import opened Abi
  import opened Descriptors
  import opened Tables
  import opened Paging

  // ---------------------------------------------------------------- the run-time walkers, as functions

  /** From table `t` at `level` down to the leaf table. */
  function Follow(g: Granule, mem: Mem, t: nat, va: nat, level: nat): Result<nat, MmuError>
    requires level <= 3
    decreases 3 - level
  {
    if level == 3 then Ok(t)
    else
      var e := Entry(mem, t, Index(g, va, level));
      if e == 0 then Err(MissingTable)
      else if TypeBits(e) == 3 then Follow(g, mem, AddrOf(g, e), va, level + 1)
      else Err(BadTable)
  }

  /** From table `t` at `level` down to the first empty entry above the leaves. */
  function FirstGap(g: Granule, mem: Mem, t: nat, va: nat, level: nat): Result<(nat, nat), MmuError>
    requires level <= 3
    decreases 3 - level
  {
    if level == 3 then Err(Overlap)
    else
      var e := Entry(mem, t, Index(g, va, level));
      if e == 0 then Ok((t, level))
      else if TypeBits(e) == 3 then FirstGap(g, mem, AddrOf(g, e), va, level + 1)
      else Err(BadTable)
  }

  /** The argument checks of `user_map_frame`. */
  function FrameArgs(g: Granule, va: nat, pa: nat): Outcome {
    if va % Size(g) != 0 || pa % Size(g) != 0 then Err(Misaligned)
    else if va < Size(g) then Err(NullPage)
    else if va + Size(g) > TWO_48 then Err(Misaligned)
    else Ok(())
  }

  function PutEntry(mem: Mem, t: nat, i: nat, e: nat): Mem {
    if t in mem && i < |mem[t]| then SetEntry(mem, t, i, e) else mem
  }

  /** `user_map_frame`. */
  function MapFrame(g: Granule, mem: Mem, root: nat, va: nat, pa: nat, perm: UserPerm): Result<Mem, MmuError> {
    var args := FrameArgs(g, va, pa);
    if args.Err? then Err(args.error)
    else
      match Follow(g, mem, root, va, 0)
      case Err(e) => Err(e)
      case Ok(t) =>
        if Entry(mem, t, Index(g, va, 3)) != 0 then Err(Overlap)
        else Ok(PutEntry(mem, t, Index(g, va, 3), Leaf(pa, UserAttrs(perm))))
  }

  /** `user_install_table`. */
  function InstallTable(g: Granule, mem: Mem, root: nat, va: nat, table: nat): Result<Mem, MmuError> {
    if table % Size(g) != 0 || va >= TWO_48 then Err(Misaligned)
    else
      match FirstGap(g, mem, root, va, 0)
      case Err(e) => Err(e)
      case Ok(gap) => Ok(PutEntry(mem, gap.0, Index(g, va, gap.1), Link(table)))
  }

  // ---------------------------------------------------------------- what they do to a forest

  lemma {:induction false} FollowIs(g: Granule, mem: Mem, sh: Shape, root: nat, va: nat, level: nat)
    requires Forest(g, mem, sh) && IsRoot(sh, root) && level <= 3 && TableAt(g, mem, root, va, level).Some?
    ensures Follow(g, mem, TableAt(g, mem, root, va, level).value, va, level) ==
            match TableAt(g, mem, root, va, 3) case Some(t) => Ok(t) case None => Err(MissingTable)
    decreases 3 - level
  {
    hide Forest, Index, AddrOf, TypeBits;
    if level < 3 {
      var t := TableAt(g, mem, root, va, level).value;
      LevelOf(g, mem, sh, root, va, level);
      EntryOk(g, mem, sh, t, Index(g, va, level));
      if Entry(mem, t, Index(g, va, level)) != 0 {
        FollowIs(g, mem, sh, root, va, level + 1);
      } else {
        MissingIs(g, mem, root, va, level);
        NoDeeper(g, mem, root, va, level + 1);
      }
    }
  }

  lemma {:induction false} NoDeeper(g: Granule, mem: Mem, root: nat, va: nat, level: nat)
    requires level <= 3 && TableAt(g, mem, root, va, level).None?
    ensures TableAt(g, mem, root, va, 3).None?
    decreases 3 - level
  {
    hide Index, Descend;
    if level < 3 {
      NoDeeper(g, mem, root, va, level + 1);
    }
  }

  lemma {:induction false} FirstGapIs(g: Granule, mem: Mem, sh: Shape, root: nat, va: nat, level: nat)
    requires Forest(g, mem, sh) && IsRoot(sh, root) && level <= 3 && TableAt(g, mem, root, va, level).Some?
    ensures var r := FirstGap(g, mem, TableAt(g, mem, root, va, level).value, va, level);
            var missing := Missing(g, mem, root, va);
            if missing == 0 then r == Err(Overlap)
            else
              && r.Ok? && r.value.1 == 3 - missing && TableAt(g, mem, root, va, r.value.1) == Some(r.value.0)
              && r.value.0 in sh.level && sh.level[r.value.0] == r.value.1
              && r.value.0 in mem && |mem[r.value.0]| == Entries(g) && mem[r.value.0][Index(g, va, r.value.1)] == 0
    decreases 3 - level
  {
    hide Forest, Index, AddrOf, TypeBits, Missing;
    if level == 3 {
      MissingIs(g, mem, root, va, 3);
    } else {
      var t := TableAt(g, mem, root, va, level).value;
      LevelOf(g, mem, sh, root, va, level);
      EntryOk(g, mem, sh, t, Index(g, va, level));
      if Entry(mem, t, Index(g, va, level)) != 0 {
        FirstGapIs(g, mem, sh, root, va, level + 1);
      } else {
        MissingIs(g, mem, root, va, level);
      }
    }
  }

  /**
    Mapping a frame adds exactly one translation and no table; each refusal has one reason, and a
    corrupt table is never met.
  */
  lemma MapFrameExact(g: Granule, mem: Mem, sh: Shape, root: nat, va: nat, pa: nat, perm: UserPerm)
    requires Forest(g, mem, sh) && IsRoot(sh, root)
    ensures var r, args := MapFrame(g, mem, root, va, pa, perm), FrameArgs(g, va, pa);
            && (r.Err? && args.Err? ==> r.error == args.error)
            && (r.Ok? ==> args.Ok?)
            && (args.Ok? ==>
                  && (r == Err(MissingTable) <==> Missing(g, mem, root, va) > 0)
                  && (r == Err(Overlap) <==> Walk(g, mem, root, va) != 0)
                  && (r.Ok? <==> Missing(g, mem, root, va) == 0 && Walk(g, mem, root, va) == 0)
                  && (r.Err? ==> r.error == MissingTable || r.error == Overlap))
            && (r.Ok? ==> Forest(g, r.value, sh) && r.value.Keys == mem.Keys
                          && MapsOne(g, mem, r.value, sh, root, va, Leaf(pa, UserAttrs(perm))))
  {
    hide Forest, Index, Leaf, UserAttrs, MapsOne, Missing;
    var args := FrameArgs(g, va, pa);
    if args.Ok? {
      FollowIs(g, mem, sh, root, va, 0);
      MissingBounds(g, mem, root, va);
      if TableAt(g, mem, root, va, 3).Some? {
        LeafChangesOnePage(g, mem, sh, root, va, Leaf(pa, UserAttrs(perm)));
        MapsOneIs(g, mem, sh, root, va, Leaf(pa, UserAttrs(perm)));
      }
    }
  }

  lemma MissingBounds(g: Granule, mem: Mem, root: nat, va: nat)
    ensures Missing(g, mem, root, va) == 0 <==> TableAt(g, mem, root, va, 3).Some?
    ensures Missing(g, mem, root, va) <= 3
  {
    hide Index, Descend;
    assert TableAt(g, mem, root, va, 3).Some? ==> TableAt(g, mem, root, va, 2).Some?;
    assert TableAt(g, mem, root, va, 2).Some? ==> TableAt(g, mem, root, va, 1).Some?;
  }

  lemma MapsOneIs(g: Granule, mem: Mem, sh: Shape, root: nat, va: nat, e: nat)
    requires Forest(g, mem, sh) && IsRoot(sh, root) && TableAt(g, mem, root, va, 3).Some?
    ensures var t := TableAt(g, mem, root, va, 3).value;
            && t in mem && |mem[t]| == Entries(g)
            && MapsOne(g, mem, SetEntry(mem, t, Index(g, va, 3), e), sh, root, va, e)
  {
    hide Forest, Index, Walk;
    LeafChangesOnePage(g, mem, sh, root, va, e);
  }

  /** The forest with the new table hung into the first gap. */
  ghost function InstalledShape(g: Granule, mem: Mem, sh: Shape, root: nat, va: nat, table: nat): Shape {
    match FirstGap(g, mem, root, va, 0)
    case Ok(gap) => if gap.0 in sh.level then Linked(sh, gap.0, Index(g, va, gap.1), table) else sh
    case Err(_) => sh
  }

  /** Installing a fresh table changes no translation and closes exactly one gap of the path. */
  lemma InstallExact(g: Granule, mem: Mem, sh: Shape, root: nat, va: nat, table: nat)
    requires Forest(g, mem, sh) && IsRoot(sh, root) && FreshTable(g, mem, sh, table)
    ensures var r := InstallTable(g, mem, root, va, table);
            && (r == Err(Misaligned) <==> va >= TWO_48)
            && (r == Err(Overlap) <==> va < TWO_48 && Missing(g, mem, root, va) == 0)
            && (r.Err? ==> r.error == Misaligned || r.error == Overlap)
            && (r.Ok? ==> r.value.Keys == mem.Keys && Missing(g, r.value, root, va) == Missing(g, mem, root, va) - 1)
            && (r.Ok? ==> forall s, v :: IsRoot(sh, s) ==> Walk(g, r.value, s, v) == Walk(g, mem, s, v))
            && (r.Ok? ==>
                  var sh' := InstalledShape(g, mem, sh, root, va, table);
                  && Forest(g, r.value, sh') && SameRoots(sh, sh') && sh'.level.Keys == sh.level.Keys + {table}
                  && forall u :: u in mem && u !in sh.level ==> r.value[u] == mem[u])
  {
    hide Forest, Index, Link, Missing, Walk, FreshTable;
    FreshIsFrame(g, mem, sh, table);
    FirstGapIs(g, mem, sh, root, va, 0);
    MissingBounds(g, mem, root, va);
    var r := InstallTable(g, mem, root, va, table);
    if r.Ok? {
      var gap := FirstGap(g, mem, root, va, 0).value;
      var t, i := gap.0, Index(g, va, gap.1);
      LinkKeepsForest(g, mem, sh, t, i, table);
      var sh' := Linked(sh, t, i, table);
      LinkedRoots(sh, t, i, table);
      forall s, v | IsRoot(sh, s)
        ensures Walk(g, r.value, s, v) == Walk(g, mem, s, v)
      {
        LinkKeepsWalk(g, mem, sh, t, i, table, s, v);
      }
      GapCloses(g, mem, sh, root, va, t, gap.1, table);
    }
  }

  lemma FreshIsFrame(g: Granule, mem: Mem, sh: Shape, table: nat)
    requires FreshTable(g, mem, sh, table)
    ensures table % Size(g) == 0 && table !in sh.level
  {
  }

  lemma LinkedRoots(sh: Shape, t: nat, i: nat, c: nat)
    requires t in sh.level && c !in sh.level
    ensures SameRoots(sh, Linked(sh, t, i, c))
  {
  }

  lemma GapCloses(g: Granule, mem: Mem, sh: Shape, root: nat, va: nat, t: nat, k: nat, table: nat)
    requires Forest(g, mem, sh) && IsRoot(sh, root) && FreshTable(g, mem, sh, table)
    requires k < 3 && TableAt(g, mem, root, va, k) == Some(t) && t in sh.level && sh.level[t] == k
    requires t in mem && |mem[t]| == Entries(g) && mem[t][Index(g, va, k)] == 0
    requires Missing(g, mem, root, va) == 3 - k
    ensures Missing(g, SetEntry(mem, t, Index(g, va, k), Link(table)), root, va) == 2 - k
  {
    hide Forest, Index, Link, FreshTable, Missing;
    var i := Index(g, va, k);
    var mem' := SetEntry(mem, t, i, Link(table));
    LevelOf(g, mem, sh, root, va, k);
    LinkTables(g, mem, sh, t, i, table, root, va, k + 1);
    if k + 1 < 3 {
      GapBelow(g, mem, root, va, k);
      LinkTables(g, mem, sh, t, i, table, root, va, k + 2);
    }
    MissingIs(g, mem', root, va, k + 1);
  }

  lemma GapBelow(g: Granule, mem: Mem, root: nat, va: nat, k: nat)
    requires k < 2 && TableAt(g, mem, root, va, k + 1).None?
    ensures TableAt(g, mem, root, va, k + 2).None?
  {
    hide Index, Descend;
  }

  // ---------------------------------------------------------------- three tables are always enough

  function InstallAll(g: Granule, mem: Mem, root: nat, va: nat, tables: seq<nat>): Result<Mem, MmuError>
    decreases |tables|
  {
    if tables == [] then Ok(mem)
    else
      match InstallTable(g, mem, root, va, tables[0])
      case Err(e) => Err(e)
      case Ok(mem') => InstallAll(g, mem', root, va, tables[1..])
  }

  ghost predicate AllFresh(g: Granule, mem: Mem, sh: Shape, tables: seq<nat>) {
    && (forall i :: 0 <= i < |tables| ==> FreshTable(g, mem, sh, tables[i]))
    && (forall i, j :: 0 <= i < j < |tables| ==> tables[i] != tables[j])
  }

  lemma StillFresh(g: Granule, mem: Mem, mem': Mem, sh: Shape, sh': Shape, tables: seq<nat>)
    requires AllFresh(g, mem, sh, tables) && tables != []
    requires sh'.level.Keys == sh.level.Keys + {tables[0]} && mem'.Keys == mem.Keys
    requires forall u :: u in mem && u !in sh.level ==> mem'[u] == mem[u]
    ensures AllFresh(g, mem', sh', tables[1..])
  {
    forall i | 0 <= i < |tables[1..]|
      ensures FreshTable(g, mem', sh', tables[1..][i])
    {
      assert FreshTable(g, mem, sh, tables[i + 1]) && tables[i + 1] != tables[0];
    }
  }

  /**
    For any unmapped page in range, as many installs as the path has gaps, at most three, make the
    mapping succeed; the only new translation is the mapped page.
  */
  lemma {:induction false} ThreeInstallsSuffice(g: Granule, mem: Mem, sh: Shape, root: nat, va: nat, tables: seq<nat>,
                                                pa: nat, perm: UserPerm)
    requires Forest(g, mem, sh) && IsRoot(sh, root) && AllFresh(g, mem, sh, tables)
    requires FrameArgs(g, va, pa).Ok? && Walk(g, mem, root, va) == 0 && |tables| == Missing(g, mem, root, va)
    ensures |tables| <= 3
    ensures var installed := InstallAll(g, mem, root, va, tables);
            && installed.Ok? && Walk(g, installed.value, root, va) == 0
            && MapFrame(g, installed.value, root, va, pa, perm).Ok?
            && forall v :: Walk(g, MapFrame(g, installed.value, root, va, pa, perm).value, root, v) ==
                 if Page(g, v) == Page(g, va) then Leaf(pa, UserAttrs(perm)) else Walk(g, mem, root, v)
    decreases |tables|
  {
    hide Forest, Walk, MapFrame, InstallTable, Leaf, UserAttrs, Page, AllFresh;
    MissingBounds(g, mem, root, va);
    if tables == [] {
      MapFrameExact(g, mem, sh, root, va, pa, perm);
    } else {
      FirstFresh(g, mem, sh, tables);
      InstallExact(g, mem, sh, root, va, tables[0]);
      var mem' := InstallTable(g, mem, root, va, tables[0]).value;
      var sh' := InstalledShape(g, mem, sh, root, va, tables[0]);
      StillFresh(g, mem, mem', sh, sh', tables);
      ThreeInstallsSuffice(g, mem', sh', root, va, tables[1..], pa, perm);
    }
  }

  lemma FirstFresh(g: Granule, mem: Mem, sh: Shape, tables: seq<nat>)
    requires AllFresh(g, mem, sh, tables) && tables != []
    ensures FreshTable(g, mem, sh, tables[0])
  {
  }
}
