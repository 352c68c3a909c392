/**
  Four-level translation tables in physical memory, shared by the kernel's table pool and the user
  address space.  `Walk` is the pure hardware walk.  A table and a page descriptor have the same
  type bits, so the level of every table is kept beside the memory, together with the one entry
  that links it: the tables form a levelled forest.
*/
module Tables {
  import opened Abi
  import opened Descriptors

  type Table = seq<nat>

  /** Granules by physical address, each as a table of words. */
  type Mem = map<nat, Table>

  function Entry(mem: Mem, t: nat, i: nat): nat {
    if t in mem && i < |mem[t]| then mem[t][i] else 0
  }

  /** One step of the walk. */
  function Descend(g: Granule, mem: Mem, t: nat, i: nat): Option<nat> {
    var e := Entry(mem, t, i);
    if TypeBits(e) == 3 then Some(AddrOf(g, e)) else None
  }

  /** The table reached after `level` steps of the walk. */
  function TableAt(g: Granule, mem: Mem, root: nat, va: nat, level: nat): Option<nat>
    requires level <= 3
  {
    if level == 0 then Some(root)
    else
      match TableAt(g, mem, root, va, level - 1)
      case None => None
      case Some(t) => Descend(g, mem, t, Index(g, va, level - 1))
  }

  /** The leaf descriptor for an address; 0 when the address is not mapped. */
  function Walk(g: Granule, mem: Mem, root: nat, va: nat): nat {
    match TableAt(g, mem, root, va, 3)
    case None => 0
    case Some(t) => Entry(mem, t, Index(g, va, 3))
  }

  /** Steps of the walk that find no table yet. */
  function Missing(g: Granule, mem: Mem, root: nat, va: nat): nat {
    if TableAt(g, mem, root, va, 1).None? then 3
    else if TableAt(g, mem, root, va, 2).None? then 2
    else if TableAt(g, mem, root, va, 3).None? then 1
    else 0
  }

  // ---------------------------------------------------------------- the levelled forest

  /** The level of every table, and for each linked table the entry that holds its link. */
  datatype Shape = Shape(level: map<nat, nat>, up: map<nat, (nat, nat)>)

  ghost predicate TablesOk(g: Granule, mem: Mem, sh: Shape) {
    forall t :: t in sh.level ==>
      t in mem && |mem[t]| == Entries(g) && IsFrame(g, t) && sh.level[t] <= 3
  }

  /** An entry above the leaf level is empty or links one table of the next level, which links back. */
  ghost predicate GoodLink(g: Granule, sh: Shape, t: nat, i: nat, e: nat)
    requires t in sh.level
  {
    var c := AddrOf(g, e);
    && e == Link(c)
    && c in sh.level && sh.level[c] == sh.level[t] + 1
    && c in sh.up && sh.up[c] == (t, i)
  }

  ghost predicate LinksOk(g: Granule, mem: Mem, sh: Shape) {
    forall t, i :: t in sh.level && t in mem && sh.level[t] < 3 && 0 <= i < |mem[t]| && mem[t][i] != 0 ==>
      GoodLink(g, sh, t, i, mem[t][i])
  }

  ghost predicate Forest(g: Granule, mem: Mem, sh: Shape) {
    TablesOk(g, mem, sh) && LinksOk(g, mem, sh)
  }

  ghost predicate IsRoot(sh: Shape, root: nat) {
    root in sh.level && sh.level[root] == 0
  }

  lemma EntryOk(g: Granule, mem: Mem, sh: Shape, t: nat, i: nat)
    requires Forest(g, mem, sh) && t in sh.level && i < Entries(g)
    ensures t in mem && |mem[t]| == Entries(g) && Entry(mem, t, i) == mem[t][i] && IsFrame(g, t)
    ensures sh.level[t] < 3 ==>
              var e := Entry(mem, t, i);
              if e == 0 then TypeBits(e) != 3
              else TypeBits(e) == 3 && e % 4 == 3 && GoodLink(g, sh, t, i, e) && AddrOf(g, e) in mem
  {
    hide AddrOf, Link, TypeBits, IsFrame, Entries;
    TypeBitsAre(0);
    if sh.level[t] < 3 && Entry(mem, t, i) != 0 {
      assert GoodLink(g, sh, t, i, mem[t][i]);
      LinkIs(g, AddrOf(g, mem[t][i]));
    }
  }

  /** In a forest the walk never meets a corrupt entry, and step k reaches a table of level k. */
  lemma {:induction false} LevelOf(g: Granule, mem: Mem, sh: Shape, root: nat, va: nat, level: nat)
    requires Forest(g, mem, sh) && IsRoot(sh, root) && level <= 3
    ensures TableAt(g, mem, root, va, level).Some? ==>
              var t := TableAt(g, mem, root, va, level).value;
              t in sh.level && sh.level[t] == level
    ensures level < 3 && TableAt(g, mem, root, va, level).Some? ==>
              var e := Entry(mem, TableAt(g, mem, root, va, level).value, Index(g, va, level));
              (TableAt(g, mem, root, va, level + 1).None? <==> e == 0)
  {
    hide AddrOf, Link, TypeBits, Forest, Index;
    if level > 0 {
      LevelOf(g, mem, sh, root, va, level - 1);
      if TableAt(g, mem, root, va, level - 1).Some? {
        EntryOk(g, mem, sh, TableAt(g, mem, root, va, level - 1).value, Index(g, va, level - 1));
      }
    }
    if TableAt(g, mem, root, va, level).Some? {
      EntryOk(g, mem, sh, TableAt(g, mem, root, va, level).value, Index(g, va, level));
    }
  }

  /** A table is reached from one root only, and by addresses that agree on every index so far. */
  lemma {:induction false} PathUnique(g: Granule, mem: Mem, sh: Shape, r: nat, va: nat, r': nat, va': nat, level: nat)
    requires Forest(g, mem, sh) && IsRoot(sh, r) && IsRoot(sh, r') && level <= 3
    requires TableAt(g, mem, r, va, level).Some? && TableAt(g, mem, r', va', level) == TableAt(g, mem, r, va, level)
    ensures r == r'
    ensures forall k :: 0 <= k < level ==> Index(g, va, k) == Index(g, va', k)
  {
    hide AddrOf, Link, TypeBits, Forest, Index;
    if level > 0 {
      var t, t' := TableAt(g, mem, r, va, level - 1), TableAt(g, mem, r', va', level - 1);
      LevelOf(g, mem, sh, r, va, level - 1);
      LevelOf(g, mem, sh, r', va', level - 1);
      EntryOk(g, mem, sh, t.value, Index(g, va, level - 1));
      EntryOk(g, mem, sh, t'.value, Index(g, va', level - 1));
      PathUnique(g, mem, sh, r, va, r', va', level - 1);
    }
  }

  // ---------------------------------------------------------------- writing a leaf

  function SetEntry(mem: Mem, t: nat, i: nat, e: nat): Mem
    requires t in mem && i < |mem[t]|
  {
    var row: Table := mem[t][i := e];
    mem[t := row]
  }

  lemma {:induction false} LeafKeepsTables(g: Granule, mem: Mem, sh: Shape, t: nat, i: nat, e: nat, r: nat, va: nat,
                                           level: nat)
    requires Forest(g, mem, sh) && t in sh.level && sh.level[t] == 3 && t in mem && i < |mem[t]| && IsRoot(sh, r)
    requires level <= 3
    ensures TableAt(g, SetEntry(mem, t, i, e), r, va, level) == TableAt(g, mem, r, va, level)
  {
    hide AddrOf, Link, TypeBits, Forest, Index;
    if level > 0 {
      LeafKeepsTables(g, mem, sh, t, i, e, r, va, level - 1);
      LevelOf(g, mem, sh, r, va, level - 1);
    }
  }

  /** Writing a leaf keeps the forest and changes the walk at one page of one root, and nowhere else. */
  lemma LeafChangesOnePage(g: Granule, mem: Mem, sh: Shape, root: nat, va: nat, e: nat)
    requires Forest(g, mem, sh) && IsRoot(sh, root) && TableAt(g, mem, root, va, 3).Some?
    ensures var t := TableAt(g, mem, root, va, 3).value;
            && t in sh.level && sh.level[t] == 3 && t in mem && |mem[t]| == Entries(g)
            && var mem' := SetEntry(mem, t, Index(g, va, 3), e);
            && Forest(g, mem', sh)
            && forall r, v :: IsRoot(sh, r) ==>
                 Walk(g, mem', r, v) == if r == root && Page(g, v) == Page(g, va) then e else Walk(g, mem, r, v)
  {
    hide AddrOf, Link, TypeBits, Forest, Index, Page;
    var t, i := TableAt(g, mem, root, va, 3).value, Index(g, va, 3);
    LevelOf(g, mem, sh, root, va, 3);
    EntryOk(g, mem, sh, t, i);
    LeafKeepsForest(g, mem, sh, t, i, e);
    var mem' := SetEntry(mem, t, i, e);
    forall r, v | IsRoot(sh, r)
      ensures Walk(g, mem', r, v) == if r == root && Page(g, v) == Page(g, va) then e else Walk(g, mem, r, v)
    {
      LeafKeepsTables(g, mem, sh, t, i, e, r, v, 3);
      if TableAt(g, mem, r, v, 3) == Some(t) {
        PathUnique(g, mem, sh, root, va, r, v, 3);
        if Index(g, v, 3) == i {
          SameIndicesSamePage(g, va, v);
        }
      }
      if r == root && Page(g, v) == Page(g, va) {
        SamePageSameTable(g, mem, root, va, v, 3);
        SamePageSameIndex(g, v, va, 3);
      }
    }
  }

  lemma LeafKeepsForest(g: Granule, mem: Mem, sh: Shape, t: nat, i: nat, e: nat)
    requires Forest(g, mem, sh) && t in sh.level && sh.level[t] == 3 && t in mem && i < |mem[t]|
    ensures Forest(g, SetEntry(mem, t, i, e), sh)
  {
    hide AddrOf, Link;
  }

  lemma {:induction false} SamePageSameTable(g: Granule, mem: Mem, root: nat, va: nat, va': nat, level: nat)
    requires level <= 3 && Page(g, va) == Page(g, va')
    ensures TableAt(g, mem, root, va, level) == TableAt(g, mem, root, va', level)
  {
    hide AddrOf, TypeBits, Index, Page;
    if level > 0 {
      SamePageSameTable(g, mem, root, va, va', level - 1);
      SamePageSameIndex(g, va, va', level - 1);
    }
  }

  lemma SamePageSameWalk(g: Granule, mem: Mem, root: nat, va: nat, va': nat)
    requires Page(g, va) == Page(g, va')
    ensures Walk(g, mem, root, va) == Walk(g, mem, root, va')
  {
    hide Page, Index;
    SamePageSameTable(g, mem, root, va, va', 3);
    SamePageSameIndex(g, va, va', 3);
  }

  // ---------------------------------------------------------------- linking a table

  /** A cleared granule that is not yet a table. */
  ghost predicate FreshTable(g: Granule, mem: Mem, sh: Shape, c: nat) {
    && IsFrame(g, c) && c in mem && c !in sh.level
    && |mem[c]| == Entries(g) && forall i :: 0 <= i < |mem[c]| ==> mem[c][i] == 0
  }

  ghost function Linked(sh: Shape, t: nat, i: nat, c: nat): Shape
    requires t in sh.level
  {
    Shape(sh.level[c := sh.level[t] + 1], sh.up[c := (t, i)])
  }

  lemma LinkKeepsForest(g: Granule, mem: Mem, sh: Shape, t: nat, i: nat, c: nat)
    requires Forest(g, mem, sh) && t in sh.level && sh.level[t] < 3 && t in mem && i < |mem[t]| && mem[t][i] == 0
    requires FreshTable(g, mem, sh, c)
    ensures Forest(g, SetEntry(mem, t, i, Link(c)), Linked(sh, t, i, c))
  {
    LinkIs(g, c);
    hide AddrOf, Link;
    var mem', sh' := SetEntry(mem, t, i, Link(c)), Linked(sh, t, i, c);
    forall u, k | u in sh'.level && sh'.level[u] < 3 && 0 <= k < |mem'[u]| && mem'[u][k] != 0
      ensures GoodLink(g, sh', u, k, mem'[u][k])
    {
      if u != c && (u != t || k != i) {
        assert mem'[u][k] == mem[u][k];
        assert GoodLink(g, sh, u, k, mem[u][k]);
      }
    }
  }

  lemma LinkSteps(g: Granule, mem: Mem, sh: Shape, t: nat, i: nat, c: nat, k: nat)
    requires t in sh.level && t in mem && i < |mem[t]| && mem[t][i] == 0 && FreshTable(g, mem, sh, c)
    ensures var mem' := SetEntry(mem, t, i, Link(c));
            && Descend(g, mem', c, k) == None
            && Descend(g, mem, t, i) == None && Descend(g, mem', t, i) == Some(c)
            && forall u :: u != t || k != i ==> Descend(g, mem', u, k) == Descend(g, mem, u, k)
  {
    LinkIs(g, c);
    TypeBitsAre(0);
    hide Link, AddrOf, TypeBits, IsFrame;
  }

  /** Through the new link the walk reaches the new table and stops there; elsewhere it is unchanged. */
  lemma {:induction false} LinkTables(g: Granule, mem: Mem, sh: Shape, t: nat, i: nat, c: nat, r: nat, va: nat,
                                      level: nat)
    requires Forest(g, mem, sh) && t in sh.level && sh.level[t] < 3 && t in mem && i < |mem[t]| && mem[t][i] == 0
    requires FreshTable(g, mem, sh, c) && IsRoot(sh, r) && level <= 3
    ensures var before, after := TableAt(g, mem, r, va, level), TableAt(g, SetEntry(mem, t, i, Link(c)), r, va, level);
            if before.Some? then after == before
            else if && level == sh.level[t] + 1
                    && TableAt(g, mem, r, va, sh.level[t]) == Some(t) && Index(g, va, sh.level[t]) == i
            then after == Some(c)
            else after == None
  {
    hide Link, Forest, Index, FreshTable, Descend;
    if level > 0 {
      LinkTables(g, mem, sh, t, i, c, r, va, level - 1);
      LevelOf(g, mem, sh, r, va, level - 1);
      LinkSteps(g, mem, sh, t, i, c, Index(g, va, level - 1));
    }
  }

  /** Installing a table changes no translation. */
  lemma LinkKeepsWalk(g: Granule, mem: Mem, sh: Shape, t: nat, i: nat, c: nat, r: nat, va: nat)
    requires Forest(g, mem, sh) && t in sh.level && sh.level[t] < 3 && t in mem && i < |mem[t]| && mem[t][i] == 0
    requires FreshTable(g, mem, sh, c) && IsRoot(sh, r)
    ensures Walk(g, SetEntry(mem, t, i, Link(c)), r, va) == Walk(g, mem, r, va)
  {
    hide AddrOf, Link, TypeBits, Forest, Index;
    LinkTables(g, mem, sh, t, i, c, r, va, 3);
    LevelOf(g, mem, sh, r, va, 3);
  }
}
