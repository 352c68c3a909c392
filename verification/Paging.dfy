/** The kernel's static pool of translation tables: allocation, mapping with rollback, and boot. */
module Paging {
  import opened Abi
  import opened Descriptors
  import opened Tables
  import opened Tallies

  datatype MmuError =
    | AlreadyEnabled | NotEnabled | GranuleUnsupported | OutOfTables | OutOfFrames
    | Misaligned | Overlap | NullPage | BadTable | MissingTable

  type Outcome = Result<(), MmuError>

  // ---------------------------------------------------------------- the pool as memory

  /** Physical address of table number i. */
  function Pa(g: Granule, base: nat, i: nat): nat {
    base + i * Size(g)
  }

  function Addrs(g: Granule, base: nat, n: nat): set<nat> {
    set i: nat | i < n :: Pa(g, base, i)
  }

  /** The pool seen as granules of physical memory. */
  ghost function PoolMem(g: Granule, base: nat, tables: seq<Table>): Mem {
    map a: nat | a in Addrs(g, base, |tables|) :: RowAt(tables, (a - base) / Size(g))
  }

  function RowAt(tables: seq<Table>, i: int): Table {
    if 0 <= i < |tables| then tables[i] else []
  }

  lemma PaIndex(g: Granule, base: nat, i: nat)
    ensures (Pa(g, base, i) - base) / Size(g) == i && (Pa(g, base, i) - base) % Size(g) == 0
  {
  }

  lemma PaInjective(g: Granule, base: nat, i: nat, j: nat)
    requires Pa(g, base, i) == Pa(g, base, j)
    ensures i == j
  {
    PaIndex(g, base, i);
    PaIndex(g, base, j);
  }

  lemma PaIsFrame(g: Granule, base: nat, i: nat, n: nat)
    requires base % Size(g) == 0 && base + n * Size(g) <= TWO_48 && i < n
    ensures IsFrame(g, Pa(g, base, i))
  {
    match g
    case K4 =>
      assert base == 4096 * (base / 4096);
      assert Pa(g, base, i) == 4096 * (base / 4096 + i);
    case K16 =>
      assert base == 16384 * (base / 16384);
      assert Pa(g, base, i) == 16384 * (base / 16384 + i);
  }

  lemma PoolMemAt(g: Granule, base: nat, tables: seq<Table>, i: nat)
    requires i < |tables|
    ensures Pa(g, base, i) in PoolMem(g, base, tables)
    ensures PoolMem(g, base, tables)[Pa(g, base, i)] == tables[i]
  {
    hide Pa;
    PaIndex(g, base, i);
    assert Pa(g, base, i) in Addrs(g, base, |tables|);
  }

  lemma PoolMemSet(g: Granule, base: nat, tables: seq<Table>, i: nat, row: Table)
    requires i < |tables|
    ensures PoolMem(g, base, tables[i := row]) == PoolMem(g, base, tables)[Pa(g, base, i) := row]
  {
    hide Pa, Size;
    var tables' := tables[i := row];
    var mem, mem' := PoolMem(g, base, tables), PoolMem(g, base, tables');
    PoolMemAt(g, base, tables, i);
    forall a | a in Addrs(g, base, |tables|)
      ensures mem'[a] == mem[Pa(g, base, i) := row][a]
    {
      var j: nat :| j < |tables| && a == Pa(g, base, j);
      PoolMemAt(g, base, tables', j);
      PoolMemAt(g, base, tables, j);
      if j != i && Pa(g, base, j) == Pa(g, base, i) {
        PaInjective(g, base, i, j);
      }
    }
    assert mem'.Keys == mem[Pa(g, base, i) := row].Keys;
  }

  // ---------------------------------------------------------------- the pool invariant

  /** Where the pool sits in physical memory. */
  datatype Place = Place(g: Granule, base: nat, len: nat) {
    predicate Ok() {
      base % Size(g) == 0 && base + len * Size(g) <= TWO_48
    }
  }

  ghost predicate Shaped(p: Place, tables: seq<Table>) {
    |tables| == p.len && forall i :: 0 <= i < |tables| ==> |tables[i]| == Entries(p.g)
  }

  ghost predicate ZeroFrom(tables: seq<Table>, used: nat) {
    forall i, k :: used <= i < |tables| && 0 <= k < |tables[i]| ==> tables[i][k] == 0
  }

  /** The tables in use are exactly the tables of the forest. */
  ghost predicate UsedAre(p: Place, used: nat, sh: Shape) {
    && (forall i: nat :: i < used ==> Pa(p.g, p.base, i) in sh.level)
    && (forall a :: a in sh.level ==> a in Addrs(p.g, p.base, used))
  }

  /** Links form a levelled forest over the used tables, and every table past `used` is clear. */
  ghost predicate PoolOk(p: Place, tables: seq<Table>, used: nat, sh: Shape) {
    && p.Ok() && used <= p.len
    && Shaped(p, tables)
    && ZeroFrom(tables, used)
    && UsedAre(p, used, sh)
    && Forest(p.g, PoolMem(p.g, p.base, tables), sh)
  }

  ghost function View(p: Place, tables: seq<Table>): Mem {
    PoolMem(p.g, p.base, tables)
  }

  /** The same translations for every root. */
  ghost predicate SameWalks(p: Place, a: Mem, b: Mem, sh: Shape) {
    forall r, v :: IsRoot(sh, r) ==> Walk(p.g, a, r, v) == Walk(p.g, b, r, v)
  }

  ghost predicate SameRoots(a: Shape, b: Shape) {
    forall r :: IsRoot(a, r) <==> IsRoot(b, r)
  }

  function PutWord(tables: seq<Table>, t: nat, i: nat, e: nat): seq<Table>
    requires t < |tables| && i < |tables[t]|
  {
    var row: Table := tables[t][i := e];
    tables[t := row]
  }

  lemma PutWordView(p: Place, tables: seq<Table>, t: nat, i: nat, e: nat)
    requires t < |tables| && i < |tables[t]|
    ensures Pa(p.g, p.base, t) in View(p, tables) && View(p, tables)[Pa(p.g, p.base, t)] == tables[t]
    ensures View(p, PutWord(tables, t, i, e)) == SetEntry(View(p, tables), Pa(p.g, p.base, t), i, e)
  {
    hide Pa, PoolMem;
    PoolMemAt(p.g, p.base, tables, t);
    PoolMemSet(p.g, p.base, tables, t, PutWord(tables, t, i, e)[t]);
  }

  lemma Unused(p: Place, tables: seq<Table>, used: nat, sh: Shape)
    requires PoolOk(p, tables, used, sh) && used < p.len
    ensures FreshTable(p.g, View(p, tables), sh, Pa(p.g, p.base, used))
  {
    hide Forest, PoolMem;
    var c := Pa(p.g, p.base, used);
    PaIsFrame(p.g, p.base, used, p.len);
    PoolMemAt(p.g, p.base, tables, used);
    hide Pa;
    if c in sh.level {
      assert c in Addrs(p.g, p.base, used);
      var j: nat :| j < used && c == Pa(p.g, p.base, j);
      PaInjective(p.g, p.base, used, j);
    }
  }

  /** Allocating the next table and linking it at an empty entry. */
  lemma GrowOk(p: Place, tables: seq<Table>, used: nat, sh: Shape, t: nat, i: nat)
    requires PoolOk(p, tables, used, sh) && used < p.len && t < used && i < Entries(p.g)
    requires var a := Pa(p.g, p.base, t); a in sh.level && sh.level[a] < 3
    requires |tables[t]| == Entries(p.g) && tables[t][i] == 0
    ensures var a, c := Pa(p.g, p.base, t), Pa(p.g, p.base, used);
            var tables', sh' := PutWord(tables, t, i, Link(c)), Linked(sh, a, i, c);
            && PoolOk(p, tables', used + 1, sh') && SameRoots(sh, sh')
            && SameWalks(p, View(p, tables), View(p, tables'), sh)
  {
    hide Forest, PoolMem, Walk, Link;
    var a, c := Pa(p.g, p.base, t), Pa(p.g, p.base, used);
    var tables', sh' := PutWord(tables, t, i, Link(c)), Linked(sh, a, i, c);
    var mem := View(p, tables);
    Unused(p, tables, used, sh);
    PutWordView(p, tables, t, i, Link(c));
    LinkKeepsForest(p.g, mem, sh, a, i, c);
    GrowUsed(p, used, sh, a, i);
    forall r, v | IsRoot(sh, r)
      ensures Walk(p.g, mem, r, v) == Walk(p.g, View(p, tables'), r, v)
    {
      LinkKeepsWalk(p.g, mem, sh, a, i, c, r, v);
    }
  }

  lemma GrowUsed(p: Place, used: nat, sh: Shape, a: nat, i: nat)
    requires UsedAre(p, used, sh) && a in sh.level && Pa(p.g, p.base, used) !in sh.level
    ensures UsedAre(p, used + 1, Linked(sh, a, i, Pa(p.g, p.base, used)))
    ensures SameRoots(sh, Linked(sh, a, i, Pa(p.g, p.base, used)))
  {
    hide Pa;
    var c := Pa(p.g, p.base, used);
    var sh' := Linked(sh, a, i, c);
    forall b | b in sh'.level
      ensures b in Addrs(p.g, p.base, used + 1)
    {
      if b != c {
        var j: nat :| j < used && b == Pa(p.g, p.base, j);
      }
    }
  }

  // ---------------------------------------------------------------- one step down the tables

  /** `index_of`: only the exact address of a used table is accepted. */
  function IndexOf(p: Place, used: nat, pa: nat): Result<nat, MmuError> {
    if pa < p.base then Err(BadTable)
    else
      var off := pa - p.base;
      var i := off / Size(p.g);
      if off % Size(p.g) != 0 || i >= used then Err(BadTable) else Ok(i)
  }

  /** `index_of` inverts the numbering of used tables and accepts nothing else. */
  lemma IndexOfExact(p: Place, used: nat, pa: nat)
    ensures forall i: nat :: IndexOf(p, used, pa) == Ok(i) <==> i < used && pa == Pa(p.g, p.base, i)
  {
    forall i: nat
      ensures IndexOf(p, used, pa) == Ok(i) <==> i < used && pa == Pa(p.g, p.base, i)
    {
      PaIndex(p.g, p.base, i);
    }
  }

  lemma StepDown(p: Place, tables: seq<Table>, used: nat, sh: Shape, root: nat, va: nat, level: nat, t: nat)
    requires PoolOk(p, tables, used, sh) && t < used && level < 3
    requires IsRoot(sh, root) && TableAt(p.g, View(p, tables), root, va, level) == Some(Pa(p.g, p.base, t))
    ensures var a := Pa(p.g, p.base, t); a in sh.level && sh.level[a] == level
    ensures t < |tables| && |tables[t]| == Entries(p.g)
    ensures var e, below := tables[t][Index(p.g, va, level)], TableAt(p.g, View(p, tables), root, va, level + 1);
            && (e == 0 ==> below == None)
            && (e != 0 ==> TypeBits(e) == 3 && below == Some(AddrOf(p.g, e)) && IndexOf(p, used, AddrOf(p.g, e)).Ok?)
  {
    hide Forest, PoolMem, Pa, Index, AddrOf, TypeBits, IndexOf;
    var a, i := Pa(p.g, p.base, t), Index(p.g, va, level);
    var mem := View(p, tables);
    LevelOf(p.g, mem, sh, root, va, level);
    PoolMemAt(p.g, p.base, tables, t);
    EntryOk(p.g, mem, sh, a, i);
    var e := tables[t][i];
    if e != 0 {
      var j: nat :| j < used && AddrOf(p.g, e) == Pa(p.g, p.base, j);
      IndexOfExact(p, used, AddrOf(p.g, e));
    }
  }

  lemma GrowReaches(p: Place, tables: seq<Table>, used: nat, sh: Shape, root: nat, va: nat, level: nat, t: nat)
    requires PoolOk(p, tables, used, sh) && used < p.len && t < used && level < 3
    requires IsRoot(sh, root) && TableAt(p.g, View(p, tables), root, va, level) == Some(Pa(p.g, p.base, t))
    requires t < |tables| && |tables[t]| == Entries(p.g) && tables[t][Index(p.g, va, level)] == 0
    ensures var c := Pa(p.g, p.base, used);
            TableAt(p.g, View(p, PutWord(tables, t, Index(p.g, va, level), Link(c))), root, va, level + 1) == Some(c)
  {
    hide Forest, PoolMem, Pa, Index, Link;
    var a, c, i := Pa(p.g, p.base, t), Pa(p.g, p.base, used), Index(p.g, va, level);
    var mem := View(p, tables);
    LevelOf(p.g, mem, sh, root, va, level);
    Unused(p, tables, used, sh);
    PutWordView(p, tables, t, i, Link(c));
    LinkTables(p.g, mem, sh, a, i, c, root, va, level + 1);
  }

  lemma GrownSameRoots(g: Granule, mem0: Mem, mem: Mem, sh0: Shape, sh: Shape, root: nat, va: nat, level: nat)
    requires level <= 3 && Grown(g, mem0, mem, sh0, root, va, level) && SameRoots(sh0, sh)
    ensures Grown(g, mem0, mem, sh, root, va, level)
  {
    hide TableAt, Trail, IsRoot;
  }

  /** The new link makes the next table on the way to `va`, and no other. */
  lemma GrowMakes(p: Place, mem0: Mem, tables: seq<Table>, used: nat, sh: Shape, root: nat, va: nat, level: nat, t: nat)
    requires PoolOk(p, tables, used, sh) && used < p.len && t < used && level < 3 && IsRoot(sh, root)
    requires Grown(p.g, mem0, View(p, tables), sh, root, va, level)
    requires TableAt(p.g, View(p, tables), root, va, level) == Some(Pa(p.g, p.base, t))
    requires t < |tables| && |tables[t]| == Entries(p.g) && tables[t][Index(p.g, va, level)] == 0
    ensures var c := Pa(p.g, p.base, used);
            Grown(p.g, mem0, View(p, PutWord(tables, t, Index(p.g, va, level), Link(c))), sh, root, va, level + 1)
  {
    hide Forest, PoolMem, Pa, Index, Link, Grown, TableAt;
    var a, c, i := Pa(p.g, p.base, t), Pa(p.g, p.base, used), Index(p.g, va, level);
    LevelOf(p.g, View(p, tables), sh, root, va, level);
    Unused(p, tables, used, sh);
    PutWordView(p, tables, t, i, Link(c));
    GrownLinks(p.g, mem0, View(p, tables), sh, root, va, level, a, c);
  }

  lemma MissingIs(g: Granule, mem: Mem, root: nat, va: nat, k: nat)
    requires k <= 3 && TableAt(g, mem, root, va, k).Some?
    requires k < 3 ==> TableAt(g, mem, root, va, k + 1).None?
    ensures Missing(g, mem, root, va) == 3 - k
    ensures k < 3 ==> Walk(g, mem, root, va) == 0
  {
    hide Descend, Index;
    assert k >= 2 ==> TableAt(g, mem, root, va, 1).Some?;
    assert k >= 1 ==> TableAt(g, mem, root, va, k - 1).Some?;
    assert k <= 1 ==> TableAt(g, mem, root, va, k + 2).None?;
    assert k == 0 ==> TableAt(g, mem, root, va, 3).None?;
  }

  // ---------------------------------------------------------------- undoing links

  /** The two pools differ only at the logged entries, which were clear before. */
  ghost predicate DifferAt(before: seq<Table>, after: seq<Table>, log: seq<(nat, nat)>) {
    && |before| == |after|
    && (forall i :: 0 <= i < |before| ==> |before[i]| == |after[i]|)
    && (forall i, k :: 0 <= i < |before| && 0 <= k < |before[i]| && (i, k) !in log ==> before[i][k] == after[i][k])
    && (forall n :: 0 <= n < |log| ==>
          log[n].0 < |before| && log[n].1 < |before[log[n].0]| && before[log[n].0][log[n].1] == 0)
  }

  lemma LogOne(before: seq<Table>, after: seq<Table>, log: seq<(nat, nat)>, t: nat, i: nat, e: nat)
    requires DifferAt(before, after, log) && t < |after| && i < |after[t]| && after[t][i] == 0
    ensures DifferAt(before, PutWord(after, t, i, e), log + [(t, i)])
  {
    var log', after' := log + [(t, i)], PutWord(after, t, i, e);
    if (t, i) in log {
      var n :| 0 <= n < |log| && log[n] == (t, i);
    }
    assert log'[|log|] == (t, i);
    forall j, k | 0 <= j < |before| && 0 <= k < |before[j]| && (j, k) !in log'
      ensures before[j][k] == after'[j][k]
    {
      assert (j, k) !in log;
    }
  }

  lemma UndoOne(before: seq<Table>, after: seq<Table>, log: seq<(nat, nat)>)
    requires DifferAt(before, after, log) && log != []
    ensures log[0].0 < |after| && log[0].1 < |after[log[0].0]|
    ensures DifferAt(before, PutWord(after, log[0].0, log[0].1, 0), log[1..])
  {
    var after' := PutWord(after, log[0].0, log[0].1, 0);
    assert log == [log[0]] + log[1..];
    forall j, k | 0 <= j < |before| && 0 <= k < |before[j]| && (j, k) !in log[1..]
      ensures before[j][k] == after'[j][k]
    {
      if (j, k) != log[0] {
        assert (j, k) !in log;
      }
    }
  }

  lemma NoDifference(before: seq<Table>, after: seq<Table>)
    requires DifferAt(before, after, [])
    ensures before == after
  {
    forall i | 0 <= i < |before|
      ensures before[i] == after[i]
    {
    }
  }

  // ---------------------------------------------------------------- the pool

  /** What a mapping attempt must answer: which error, if any, and exactly when. */
  ghost predicate RightAnswer(p: Place, mem: Mem, used: nat, root: nat, va: nat, r: Outcome) {
    && (r == Err(Overlap) <==> Walk(p.g, mem, root, va) != 0)
    && (r == Err(OutOfTables) <==> Walk(p.g, mem, root, va) == 0 && used + Missing(p.g, mem, root, va) > p.len)
    && (r.Err? ==> r.error == Overlap || r.error == OutOfTables)
  }

  /** `after` maps one more page than `before`, and is otherwise the same for every root. */
  ghost predicate MapsOne(g: Granule, before: Mem, after: Mem, sh: Shape, root: nat, va: nat, e: nat) {
    forall r, v :: IsRoot(sh, r) ==>
      Walk(g, after, r, v) == if r == root && Page(g, v) == Page(g, va) then e else Walk(g, before, r, v)
  }

  /**
    The state of the walk in `map_page` on reaching table number `t` at `level`: every link made so
    far is logged, the translations are those of the pool it started from, and once a link has been
    made the walk is in a clear table.
  */
  ghost predicate Descent(p: Place, tables0: seq<Table>, used0: nat, sh0: Shape,
                          tables: seq<Table>, used: nat, sh: Shape,
                          root: nat, va: nat, level: nat, t: nat, log: seq<(nat, nat)>)
    requires level <= 3
  {
    && PoolOk(p, tables0, used0, sh0) && IsRoot(sh0, root)
    && t < used && used == used0 + |log| <= p.len && |log| <= level
    && PoolOk(p, tables, used, sh) && SameRoots(sh0, sh)
    && TableAt(p.g, View(p, tables), root, va, level) == Some(Pa(p.g, p.base, t))
    && SameWalks(p, View(p, tables0), View(p, tables), sh0)
    && DifferAt(tables0, tables, log)
    && TableAt(p.g, View(p, tables0), root, va, level - |log|).Some?
    && (log == [] ==> tables == tables0)
    && (log != [] ==> TableAt(p.g, View(p, tables0), root, va, level - |log| + 1).None? && ZeroRow(tables, t))
  }

  lemma DescentStart(p: Place, tables: seq<Table>, used: nat, sh: Shape, root: nat, va: nat)
    requires PoolOk(p, tables, used, sh) && root < used && IsRoot(sh, Pa(p.g, p.base, root))
    ensures used <= p.len
    ensures Descent(p, tables, used, sh, tables, used, sh, Pa(p.g, p.base, root), va, 0, root, [])
  {
    hide Forest, PoolMem, Pa, Walk;
    SameTables(tables);
  }

  lemma DescentFacts(p: Place, tables0: seq<Table>, used0: nat, sh0: Shape, tables: seq<Table>, used: nat, sh: Shape,
                     root: nat, va: nat, level: nat, t: nat, log: seq<(nat, nat)>)
    requires level < 3 && Descent(p, tables0, used0, sh0, tables, used, sh, root, va, level, t, log)
    ensures DifferAt(tables0, tables, log)
    ensures t < used <= p.len && t < |tables| && |tables[t]| == Entries(p.g)
    ensures var a := Pa(p.g, p.base, t); a in sh.level && sh.level[a] < 3
    ensures var e := tables[t][Index(p.g, va, level)];
            e != 0 ==> TypeBits(e) == 3 && IndexOf(p, used, AddrOf(p.g, e)).Ok?
  {
    hide PoolOk, Pa, Index, AddrOf, TypeBits, IndexOf, View, Walk, DifferAt;
    StepDown(p, tables, used, sh, root, va, level, t);
  }

  lemma NoTableLeft(p: Place, tables0: seq<Table>, used0: nat, sh0: Shape, tables: seq<Table>, used: nat, sh: Shape,
                    root: nat, va: nat, level: nat, t: nat, log: seq<(nat, nat)>)
    requires level < 3 && Descent(p, tables0, used0, sh0, tables, used, sh, root, va, level, t, log)
    requires used == p.len && t < |tables| && |tables[t]| == Entries(p.g) && tables[t][Index(p.g, va, level)] == 0
    ensures RightAnswer(p, View(p, tables0), used0, root, va, Err(OutOfTables))
  {
    hide PoolOk, Pa, Index, AddrOf, TypeBits, IndexOf, View, Walk, DifferAt, Missing;
    StepDown(p, tables, used, sh, root, va, level, t);
    MissingIs(p.g, View(p, tables0), root, va, level - |log|);
  }

  lemma DescentGrows(p: Place, tables0: seq<Table>, used0: nat, sh0: Shape, tables: seq<Table>, used: nat, sh: Shape,
                     root: nat, va: nat, level: nat, t: nat, log: seq<(nat, nat)>)
    requires level < 3 && Descent(p, tables0, used0, sh0, tables, used, sh, root, va, level, t, log)
    requires used < p.len && t < |tables| && |tables[t]| == Entries(p.g) && tables[t][Index(p.g, va, level)] == 0
    requires var a := Pa(p.g, p.base, t); a in sh.level && sh.level[a] < 3
    ensures var a, c, i := Pa(p.g, p.base, t), Pa(p.g, p.base, used), Index(p.g, va, level);
            Descent(p, tables0, used0, sh0, PutWord(tables, t, i, Link(c)), used + 1, Linked(sh, a, i, c),
                    root, va, level + 1, used, log + [(t, i)])
  {
    hide PoolOk, Pa, Index, Link, View, Walk, DifferAt;
    var c, i := Pa(p.g, p.base, used), Index(p.g, va, level);
    StepDown(p, tables, used, sh, root, va, level, t);
    FreshRow(p, tables, used, sh);
    GrowOk(p, tables, used, sh, t, i);
    GrowReaches(p, tables, used, sh, root, va, level, t);
    LogOne(tables0, tables, log, t, i, Link(c));
    ChainWalks(p, View(p, tables0), View(p, tables), View(p, PutWord(tables, t, i, Link(c))), sh0, sh);
  }

  lemma DescentFollows(p: Place, tables0: seq<Table>, used0: nat, sh0: Shape, tables: seq<Table>, used: nat, sh: Shape,
                       root: nat, va: nat, level: nat, t: nat, log: seq<(nat, nat)>)
    requires level < 3 && Descent(p, tables0, used0, sh0, tables, used, sh, root, va, level, t, log)
    requires t < |tables| && |tables[t]| == Entries(p.g) && tables[t][Index(p.g, va, level)] != 0
    requires IndexOf(p, used, AddrOf(p.g, tables[t][Index(p.g, va, level)])).Ok?
    ensures Descent(p, tables0, used0, sh0, tables, used, sh, root, va, level + 1,
                    IndexOf(p, used, AddrOf(p.g, tables[t][Index(p.g, va, level)])).value, log)
  {
    hide PoolOk, Pa, Index, AddrOf, TypeBits, IndexOf, View, Walk, DifferAt;
    StepDown(p, tables, used, sh, root, va, level, t);
    IndexOfExact(p, used, AddrOf(p.g, tables[t][Index(p.g, va, level)]));
  }

  lemma DescentEnds(p: Place, tables0: seq<Table>, used0: nat, sh0: Shape, tables: seq<Table>, used: nat, sh: Shape,
                    root: nat, va: nat, t: nat, log: seq<(nat, nat)>, leaf: nat)
    requires Descent(p, tables0, used0, sh0, tables, used, sh, root, va, 3, t, log)
    ensures t < |tables| && |tables[t]| == Entries(p.g)
    ensures var i := Index(p.g, va, 3);
            if tables[t][i] != 0 then
              DifferAt(tables0, tables, log) && RightAnswer(p, View(p, tables0), used0, root, va, Err(Overlap))
            else
              var tables' := PutWord(tables, t, i, leaf);
              && PoolOk(p, tables', used, sh) && SameRoots(sh0, sh)
              && RightAnswer(p, View(p, tables0), used0, root, va, Ok(()))
              && used == used0 + Missing(p.g, View(p, tables0), root, va)
              && MapsOne(p.g, View(p, tables0), View(p, tables'), sh, root, va, leaf)
  {
    hide PoolOk, Pa, Index, View, Walk, DifferAt, MapsOne, Missing;
    LastStep(p, tables, used, sh, root, va, t);
    MissingIs(p.g, View(p, tables0), root, va, 3 - |log|);
    LeafOk(p, tables, used, sh, root, va, t, leaf);
    ChainMaps(p, View(p, tables0), View(p, tables), View(p, PutWord(tables, t, Index(p.g, va, 3), leaf)), sh0, sh, root,
              va, leaf);
  }

  lemma DescentMakes(p: Place, tables0: seq<Table>, used0: nat, sh0: Shape, tables: seq<Table>, used: nat, sh: Shape,
                     root: nat, va: nat, level: nat, t: nat, log: seq<(nat, nat)>)
    requires level < 3 && Descent(p, tables0, used0, sh0, tables, used, sh, root, va, level, t, log)
    requires used < p.len && t < |tables| && |tables[t]| == Entries(p.g) && tables[t][Index(p.g, va, level)] == 0
    requires Grown(p.g, View(p, tables0), View(p, tables), sh0, root, va, level)
    ensures var c := Pa(p.g, p.base, used);
            Grown(p.g, View(p, tables0), View(p, PutWord(tables, t, Index(p.g, va, level), Link(c))), sh0, root, va,
                  level + 1)
  {
    hide PoolOk, Pa, Index, Link, View, Walk, DifferAt, Grown, TableAt, IsRoot;
    var mem0, c := View(p, tables0), Pa(p.g, p.base, used);
    GrownSameRoots(p.g, mem0, View(p, tables), sh0, sh, root, va, level);
    GrowMakes(p, mem0, tables, used, sh, root, va, level, t);
    var mem := View(p, PutWord(tables, t, Index(p.g, va, level), Link(c)));
    GrownSameRoots(p.g, mem0, mem, sh, sh0, root, va, level + 1);
  }

  lemma DescentFinds(p: Place, tables0: seq<Table>, used0: nat, sh0: Shape, tables: seq<Table>, used: nat, sh: Shape,
                     root: nat, va: nat, level: nat, t: nat, log: seq<(nat, nat)>)
    requires level < 3 && Descent(p, tables0, used0, sh0, tables, used, sh, root, va, level + 1, t, log)
    requires Grown(p.g, View(p, tables0), View(p, tables), sh0, root, va, level)
    ensures Grown(p.g, View(p, tables0), View(p, tables), sh0, root, va, level + 1)
  {
    hide PoolOk, Pa, Index, View, Walk, DifferAt, Grown, TableAt;
    GrownFollows(p.g, View(p, tables0), View(p, tables), sh0, root, va, level);
  }

  lemma DescentDone(p: Place, tables0: seq<Table>, used0: nat, sh0: Shape, tables: seq<Table>, used: nat, sh: Shape,
                    root: nat, va: nat, t: nat, log: seq<(nat, nat)>, leaf: nat)
    requires Descent(p, tables0, used0, sh0, tables, used, sh, root, va, 3, t, log)
    requires Grown(p.g, View(p, tables0), View(p, tables), sh0, root, va, 3)
    requires t < |tables| && |tables[t]| == Entries(p.g)
    ensures Grown(p.g, View(p, tables0), View(p, PutWord(tables, t, Index(p.g, va, 3), leaf)), sh0, root, va, 3)
  {
    hide Forest, PoolMem, Pa, Index, Walk, DifferAt, Grown, TableAt;
    var mem0, a, i := View(p, tables0), Pa(p.g, p.base, t), Index(p.g, va, 3);
    LevelOf(p.g, View(p, tables), sh, root, va, 3);
    PutWordView(p, tables, t, i, leaf);
    GrownSameRoots(p.g, mem0, View(p, tables), sh0, sh, root, va, 3);
    GrownLeaf(p.g, mem0, View(p, tables), sh, root, va, a, i, leaf);
    GrownSameRoots(p.g, mem0, SetEntry(View(p, tables), a, i, leaf), sh, sh0, root, va, 3);
  }

  class Pool {
    const p: Place
    var tables: seq<Table>
    var used: nat
    var enabled: bool
    var root1: nat
    ghost var sh: Shape

    ghost predicate Valid()
      reads this
    {
      PoolOk(p, tables, used, sh)
    }

    ghost function Mem(): Mem
      reads this
    {
      View(p, tables)
    }

    ghost predicate RootTable(i: nat)
      reads this
    {
      i < used && IsRoot(sh, Pa(p.g, p.base, i))
    }

    method Alloc() returns (r: Result<nat, MmuError>)
      requires used <= p.len
      modifies this`used
      ensures old(used) == p.len ==> r == Err(OutOfTables) && used == old(used)
      ensures old(used) < p.len ==> r == Ok(old(used)) && used == old(used) + 1
    {
      if used == p.len {
        return Err(OutOfTables);
      }
      r := Ok(used);
      used := used + 1;
    }

    /** The walk of `map_page`, before any rollback; `log` lists the links it made. */
    method TryMap(root: nat, va: nat, pa: nat, attrs: nat) returns (r: Outcome, log: seq<(nat, nat)>)
      requires Valid() && RootTable(root)
      modifies this`tables, this`used, this`sh
      ensures RightAnswer(p, old(Mem()), old(used), Pa(p.g, p.base, root), va, r)
      ensures r.Err? ==> DifferAt(old(tables), tables, log)
      ensures r.Ok? ==>
                && Valid() && SameRoots(old(sh), sh)
                && used == old(used) + Missing(p.g, old(Mem()), Pa(p.g, p.base, root), va)
      ensures r.Ok? ==> MapsOne(p.g, old(Mem()), Mem(), sh, Pa(p.g, p.base, root), va, Leaf(pa, attrs))
      ensures r.Ok? ==> Grown(p.g, old(Mem()), Mem(), old(sh), Pa(p.g, p.base, root), va, 3)
    {
      hide Descent, PoolOk, Pa, Index, Link, TypeBits, AddrOf, IndexOf, Leaf, DifferAt, View, RightAnswer, MapsOne,
           Grown;
      ghost var rootPa, tables0, used0, sh0 := Pa(p.g, p.base, root), tables, used, sh;
      log := [];
      var t: nat, level: nat := root, 0;
      DescentStart(p, tables, used, sh, root, va);
      GrownStart(p.g, Mem(), sh, rootPa, va);
      while level < 3
        invariant level <= 3 && used <= p.len
        invariant Descent(p, tables0, used0, sh0, tables, used, sh, rootPa, va, level, t, log)
        invariant Grown(p.g, View(p, tables0), View(p, tables), sh0, rootPa, va, level)
      {
        DescentFacts(p, tables0, used0, sh0, tables, used, sh, rootPa, va, level, t, log);
        var idx := Index(p.g, va, level);
        var entry := tables[t][idx];
        if entry == 0 {
          var child := Alloc();
          if child.Err? {
            NoTableLeft(p, tables0, used0, sh0, tables, used, sh, rootPa, va, level, t, log);
            return Err(child.error), log;
          }
          DescentGrows(p, tables0, used0, sh0, tables, child.value, sh, rootPa, va, level, t, log);
          DescentMakes(p, tables0, used0, sh0, tables, child.value, sh, rootPa, va, level, t, log);
          ghost var c := Pa(p.g, p.base, child.value);
          sh := Linked(sh, Pa(p.g, p.base, t), idx, c);
          tables := PutWord(tables, t, idx, Link(Pa(p.g, p.base, child.value)));
          log := log + [(t, idx)];
          t := child.value;
        } else {
          var down := if TypeBits(entry) == 3 then IndexOf(p, used, AddrOf(p.g, entry)) else Err(BadTable);
          if down.Err? {
            return Err(BadTable), log;
          }
          DescentFollows(p, tables0, used0, sh0, tables, used, sh, rootPa, va, level, t, log);
          DescentFinds(p, tables0, used0, sh0, tables, used, sh, rootPa, va, level, down.value, log);
          t := down.value;
        }
        level := level + 1;
      }
      var idx := Index(p.g, va, 3);
      DescentEnds(p, tables0, used0, sh0, tables, used, sh, rootPa, va, t, log, Leaf(pa, attrs));
      if tables[t][idx] != 0 {
        return Err(Overlap), log;
      }
      DescentDone(p, tables0, used0, sh0, tables, used, sh, rootPa, va, t, log, Leaf(pa, attrs));
      tables := PutWord(tables, t, idx, Leaf(pa, attrs));
      r := Ok(());
    }

    /** Map one page.  A failed call leaves the pool exactly as it was. */
    method MapPage(root: nat, va: nat, pa: nat, attrs: nat) returns (r: Outcome)
      requires Valid() && RootTable(root)
      modifies this`tables, this`used, this`sh
      ensures Valid()
      ensures RightAnswer(p, old(Mem()), old(used), Pa(p.g, p.base, root), va, r)
      ensures r.Err? ==> tables == old(tables) && used == old(used) && sh == old(sh)
      ensures r.Ok? ==>
                SameRoots(old(sh), sh) && used == old(used) + Missing(p.g, old(Mem()), Pa(p.g, p.base, root), va)
      ensures r.Ok? ==> MapsOne(p.g, old(Mem()), Mem(), sh, Pa(p.g, p.base, root), va, Leaf(pa, attrs))
      ensures r.Ok? ==> Grown(p.g, old(Mem()), Mem(), old(sh), Pa(p.g, p.base, root), va, 3)
    {
      hide PoolOk, Pa, Leaf, Walk, DifferAt, View, MapsOne, RightAnswer, Grown;
      var usedBefore := used;
      ghost var sh0 := sh;
      var log;
      r, log := TryMap(root, va, pa, attrs);
      if r.Err? {
        var n := 0;
        while n < |log|
          invariant n <= |log|
          invariant DifferAt(old(tables), tables, log[n..])
        {
          UndoOne(old(tables), tables, log[n..]);
          assert log[n..][1..] == log[n + 1..];
          tables := PutWord(tables, log[n].0, log[n].1, 0);
          n := n + 1;
        }
        assert log[n..] == [];
        NoDifference(old(tables), tables);
        used := usedBefore;
        sh := sh0;
      }
    }

    /**
      Map a range page by page; `done` counts the pages mapped.  Earlier pages stay when a later one fails.
      A range that does not wrap around 2^48 gets exactly its own pages.
    */
    method MapRange(root: nat, va: nat, pa: nat, len: nat, perm: KernelPerm) returns (r: Outcome, ghost done: nat)
      requires Valid() && RootTable(root)
      modifies this`tables, this`used, this`sh
      ensures Valid() && SameRoots(old(sh), sh) && used >= old(used)
      ensures done * Size(p.g) <= len && (r.Ok? ==> done * Size(p.g) == len)
      ensures r == Err(Misaligned) <==> va % Size(p.g) != 0 || pa % Size(p.g) != 0 || len % Size(p.g) != 0
      ensures r.Err? ==> r.error == Misaligned || r.error == Overlap || r.error == OutOfTables
      ensures r.Err? ==> if r.error == Misaligned then done == 0 else done * Size(p.g) < len
      ensures RangeMade(p.g, old(Mem()), Mem(), sh, Pa(p.g, p.base, root), va, pa, len, done, KernelAttrs(perm), r)
      ensures RangeTold(p, old(Mem()), old(sh), old(used), Mem(), sh, used, Pa(p.g, p.base, root), va, done, r)
      ensures len == Size(p.g) && r.Err? ==> tables == old(tables) && used == old(used) && sh == old(sh)
      ensures len == Size(p.g) && r != Err(Misaligned) ==>
                RightAnswer(p, old(Mem()), old(used), Pa(p.g, p.base, root), va, r)
    {
      hide PoolOk, Pa, Leaf, Walk, View, MapsOne, MapsRange, KernelAttrs, Page, Size, Missing, Grown, Counted,
           RangeKeys, RangeMade, RangeTold;
      ghost var mem0, rootPa := Mem(), Pa(p.g, p.base, root);
      done := 0;
      RangeBegins(p, mem0, sh, used, rootPa, va, pa, len, KernelAttrs(perm));
      if va % Size(p.g) != 0 || pa % Size(p.g) != 0 || len % Size(p.g) != 0 {
        return Err(Misaligned), done;
      }
      var attrs := KernelAttrs(perm);
      var off: nat := 0;
      while off < len
        invariant Valid() && RootTable(root) && SameRoots(old(sh), sh) && used >= old(used)
        invariant off == done * Size(p.g) && off <= len && (len - off) % Size(p.g) == 0
        invariant RangeMade(p.g, mem0, Mem(), sh, rootPa, va, pa, len, done, attrs, Ok(()))
        invariant done == 0 ==> tables == old(tables) && used == old(used) && sh == old(sh)
        invariant done == 1 ==> RightAnswer(p, mem0, old(used), rootPa, va, Ok(()))
        invariant RangeTold(p, mem0, old(sh), old(used), Mem(), sh, used, rootPa, va, done, Ok(()))
        decreases len - off
      {
        ghost var mem1, sh1, used1 := Mem(), sh, used;
        r := MapPage(root, va + off, pa + off, attrs);
        StepOn(p.g, off, len, done);
        PageMade(p, mem0, mem1, used1, sh1, Mem(), sh, rootPa, va, pa, len, done, attrs, r);
        PageCounted(p, mem0, old(sh), old(used), mem1, sh1, used1, Mem(), sh, used, rootPa, va, done, r);
        if r.Err? {
          return r, done;
        }
        off := off + Size(p.g);
        done := done + 1;
      }
      r := Ok(());
    }

    constructor (p: Place)
      requires p.Ok()
      ensures this.p == p && Valid() && used == 0 && !enabled && ZeroFrom(tables, 0)
    {
      this.p := p;
      used, enabled, root1 := 0, false, 0;
      var row: Table := seq(Entries(p.g), _ => 0);
      tables := seq(p.len, _ => row);
      sh := Shape(map[], map[]);
      new;
      hide Addrs, PoolMem;
    }

    /** Map one segment through one root; the half of the other root stays as it is. */
    method MapHalf(root: nat, off: nat, seg: Segment, ghost segs: seq<Segment>,
                   ghost other: nat, ghost otherOff: nat, ghost otherSegs: seq<Segment>)
      returns (r: Outcome, ghost n: nat)
      requires Valid() && RootTable(root) && RootTable(other) && root != other
      requires (off == 0 || off == KERNEL_VA_OFFSET) && (otherOff == 0 || otherOff == KERNEL_VA_OFFSET)
      requires seg.start < seg.end <= TWO_48 && HalfMap(p.g, Mem(), Pa(p.g, p.base, root), off, segs)
      requires HalfMap(p.g, Mem(), Pa(p.g, p.base, other), otherOff, otherSegs)
      modifies this`tables, this`used, this`sh
      ensures Valid() && RootTable(root) && RootTable(other) && MapError(r)
      ensures r == Err(Misaligned) <==> Ragged(p.g, seg)
      ensures r == Err(Overlap) ==> Clashes(p.g, segs, seg)
      ensures r.Ok? ==> !Clashes(p.g, segs, seg)
      ensures r.Ok? ==> HalfMap(p.g, Mem(), Pa(p.g, p.base, root), off, segs + [seg])
      ensures r.Ok? ==> HalfMap(p.g, Mem(), Pa(p.g, p.base, other), otherOff, otherSegs)
      ensures r.Ok? ==> n * Size(p.g) == seg.end - seg.start
      ensures r == Err(OutOfTables) ==> n * Size(p.g) < seg.end - seg.start
      ensures forall made: Keys :: Counted(p.g, old(Mem()), old(sh), old(used), made) ==>
                Counted(p.g, Mem(), sh, used, made + RangeKeys(p.g, Pa(p.g, p.base, root), seg.start + off, n))
      ensures r == Err(OutOfTables) ==> forall made: Keys :: Counted(p.g, old(Mem()), old(sh), old(used), made) ==>
                2 + |made + RangeKeys(p.g, Pa(p.g, p.base, root), seg.start + off, n + 1)| > p.len
    {
      hide PoolOk, Pa, Leaf, Walk, View, MapsRange, HalfMap, Size, KernelAttrs, Clashes, Ragged, Counted, RangeKeys;
      RaggedIs(p.g, seg);
      RootsDiffer(p, root, other);
      HighHalf(seg.start);
      AlignedOffset(p.g, seg.start, off);
      ghost var a, b, mem0 := Pa(p.g, p.base, root), Pa(p.g, p.base, other), Mem();
      r, n := MapRange(root, seg.start + off, seg.start, seg.end - seg.start, seg.perm);
      if r == Err(Overlap) {
        ClashAt(p.g, mem0, a, off, segs, seg, n);
      } else if r.Ok? {
        NoClash(p.g, mem0, a, off, segs, seg, n);
        HalfExtends(p.g, mem0, Mem(), sh, a, off, segs, seg, n);
        HalfKept(p.g, mem0, Mem(), sh, b, otherOff, otherSegs, a, seg.start + off, seg.start, n, KernelAttrs(seg.perm));
      }
    }

    /** Map one segment at its own address and in the higher half. */
    method MapSegment(seg: Segment, root0: nat, root1: nat, ghost segs: seq<Segment>) returns (r: Outcome)
      requires Valid() && RootTable(root0) && RootTable(root1) && root0 != root1
      requires seg.start < seg.end <= TWO_48
      requires BothHalves(p, Mem(), root0, root1, segs)
      requires Counted(p.g, Mem(), sh, used, LayoutKeys(p, root0, root1, segs))
      modifies this`tables, this`used, this`sh
      ensures Valid() && RootTable(root0) && RootTable(root1) && MapError(r)
      ensures r.Ok? ==> BothHalves(p, Mem(), root0, root1, segs + [seg])
      ensures r == Err(Misaligned) <==> Ragged(p.g, seg)
      ensures r == Err(Overlap) ==> Clashes(p.g, segs, seg)
      ensures r.Ok? ==> !Clashes(p.g, segs, seg)
      ensures r.Ok? ==> Counted(p.g, Mem(), sh, used, LayoutKeys(p, root0, root1, segs + [seg]))
      ensures r == Err(OutOfTables) ==> 2 + |LayoutKeys(p, root0, root1, segs + [seg])| > p.len
    {
      hide PoolOk, Pa, View, HalfMap, Size, Clashes, Ragged, Counted, RangeKeys, LayoutKeys, IsRoot;
      RaggedIs(p.g, seg);
      assert seg.start + 0 == seg.start;
      ghost var n, n0;
      r, n0 := MapHalf(root0, 0, seg, segs, root1, KERNEL_VA_OFFSET, segs);
      if r.Err? {
        if r == Err(OutOfTables) {
          EvenLength(p.g, seg);
          LowShort(p, root0, root1, segs, seg, n0);
        }
        return;
      }
      r, n := MapHalf(root1, KERNEL_VA_OFFSET, seg, segs, root0, 0, segs + [seg]);
      if r.Ok? || r == Err(OutOfTables) {
        FewerPages(p.g, n, n0, seg.end - seg.start);
        HighCounted(p, root0, root1, segs, seg, n0, n);
      }
    }

    method MapSegments(segments: seq<Segment>) returns (r: Outcome)
      requires Valid() && RootTable(0) && RootTable(1) && BothHalves(p, Mem(), 0, 1, [])
      requires Counted(p.g, Mem(), sh, used, LayoutKeys(p, 0, 1, []))
      requires forall i :: 0 <= i < |segments| ==> segments[i].end <= TWO_48
      modifies this`tables, this`used, this`sh
      ensures Valid() && RootTable(0) && RootTable(1) && MapError(r)
      ensures r.Ok? ==> BothHalves(p, Mem(), 0, 1, segments)
      ensures r.Ok? ==> forall k :: 0 <= k < |segments| ==>
                !Uneven(p.g, segments[k], true) && !Clashes(p.g, segments[..k], segments[k])
      ensures r == Err(Misaligned) ==> exists k :: 0 <= k < |segments| && Uneven(p.g, segments[k], true)
      ensures r == Err(Overlap) ==> exists k :: 0 <= k < |segments| && Clashes(p.g, segments[..k], segments[k])
      ensures r.Ok? ==> Counted(p.g, Mem(), sh, used, LayoutKeys(p, 0, 1, segments))
      ensures r == Err(OutOfTables) ==> 2 + |LayoutKeys(p, 0, 1, segments)| > p.len
    {
      hide PoolOk, Pa, View, BothHalves, Size, IsRoot, Ragged, Counted, LayoutKeys;
      var i := 0;
      while i < |segments|
        invariant i <= |segments|
        invariant Valid() && RootTable(0) && RootTable(1)
        invariant BothHalves(p, Mem(), 0, 1, segments[..i])
        invariant Counted(p.g, Mem(), sh, used, LayoutKeys(p, 0, 1, segments[..i]))
        invariant forall k :: 0 <= k < i ==>
                    !Uneven(p.g, segments[k], true) && !Clashes(p.g, segments[..k], segments[k])
      {
        var seg := segments[i];
        RaggedIs(p.g, seg);
        assert segments[..i] + [seg] == segments[..i + 1];
        if seg.end < seg.start {
          return Err(Misaligned);
        }
        if seg.end == seg.start {
          EmptySegment(p, Mem(), segments[..i], seg);
          EmptyKeys(p, segments[..i], seg);
        } else {
          LayoutKeysGrow(p, segments, i + 1);
          r := MapSegment(seg, 0, 1, segments[..i]);
          if r.Err? {
            return;
          }
        }
        i := i + 1;
      }
      assert segments[..i] == segments;
      r := Ok(());
    }

    method MapDevices(ghost segments: seq<Segment>, devices: seq<Segment>) returns (r: Outcome)
      requires Valid() && RootTable(0) && RootTable(1) && BothHalves(p, Mem(), 0, 1, segments)
      requires Counted(p.g, Mem(), sh, used, LayoutKeys(p, 0, 1, segments))
      requires forall i :: 0 <= i < |devices| ==> devices[i].end <= TWO_48
      modifies this`tables, this`used, this`sh
      ensures Valid() && RootTable(0) && RootTable(1) && MapError(r)
      ensures r.Ok? ==> BothHalves(p, Mem(), 0, 1, segments + devices)
      ensures r.Ok? ==> forall k :: 0 <= k < |devices| ==>
                !Uneven(p.g, devices[k], false) && !Clashes(p.g, segments + devices[..k], devices[k])
      ensures r == Err(Misaligned) ==> exists k :: 0 <= k < |devices| && Uneven(p.g, devices[k], false)
      ensures r == Err(Overlap) ==> exists k :: 0 <= k < |devices| && Clashes(p.g, segments + devices[..k], devices[k])
      ensures r.Ok? ==> Counted(p.g, Mem(), sh, used, LayoutKeys(p, 0, 1, segments + devices))
      ensures r == Err(OutOfTables) ==> 2 + |LayoutKeys(p, 0, 1, segments + devices)| > p.len
    {
      hide PoolOk, Pa, View, BothHalves, Size, IsRoot, Ragged, Counted, LayoutKeys;
      var j := 0;
      assert segments + devices[..0] == segments;
      while j < |devices|
        invariant j <= |devices|
        invariant Valid() && RootTable(0) && RootTable(1)
        invariant BothHalves(p, Mem(), 0, 1, segments + devices[..j])
        invariant Counted(p.g, Mem(), sh, used, LayoutKeys(p, 0, 1, segments + devices[..j]))
        invariant forall k :: 0 <= k < j ==>
                    !Uneven(p.g, devices[k], false) && !Clashes(p.g, segments + devices[..k], devices[k])
      {
        var dev := devices[j];
        RaggedIs(p.g, dev);
        assert (segments + devices[..j]) + [dev] == segments + devices[..j + 1];
        if dev.end <= dev.start {
          EmptySegment(p, Mem(), segments + devices[..j], dev);
          EmptyKeys(p, segments + devices[..j], dev);
        } else {
          LayoutKeysGrow(p, segments + devices, |segments| + j + 1);
          assert (segments + devices)[..|segments| + j + 1] == segments + devices[..j + 1];
          r := MapSegment(dev, 0, 1, segments + devices[..j]);
          if r.Err? {
            return;
          }
        }
        j := j + 1;
      }
      assert devices[..j] == devices;
      r := Ok(());
    }

    /**
      The mapping part of `enable_paging`: on success both halves translate every frame exactly as
      the layout says, at its own address and at the kernel alias, and nothing else is mapped.
    */
    method EnablePaging(layout: KernelLayout, supported: bool) returns (r: Outcome)
      requires Valid() && (!enabled ==> used == 0 && ZeroFrom(tables, 0)) && layout.InRange(p.g)
      modifies this
      ensures r == Err(GranuleUnsupported) <==> !supported
      ensures r == Err(AlreadyEnabled) <==> supported && old(enabled)
      ensures r.Ok? ==> enabled && root1 == 1 && Valid() && RootTable(0) && RootTable(1)
      ensures r.Ok? ==> BothHalves(p, Mem(), 0, 1, layout.Segments(p.g) + layout.Devices())
      ensures r.Ok? ==> LayoutMapped(p.g, layout, Mem(), Pa(p.g, p.base, 0), 0)
      ensures r.Ok? ==> LayoutMapped(p.g, layout, Mem(), Pa(p.g, p.base, 1), KERNEL_VA_OFFSET)
      ensures r == Err(Misaligned) ==> LayoutUneven(p.g, layout)
      ensures r == Err(Overlap) ==> LayoutClashes(p.g, layout)
      ensures r.Ok? ==> Counted(p.g, Mem(), sh, used, LayoutKeys(p, 0, 1, layout.Segments(p.g) + layout.Devices()))
      ensures r.Ok? <==> supported && !old(enabled) && LayoutFits(p, layout)
      ensures r == Err(OutOfTables) ==> TablesNeeded(p, layout) > p.len
      ensures r.Err? ==> r.error in {GranuleUnsupported, AlreadyEnabled, OutOfTables, Misaligned, Overlap}
    {
      hide PoolOk, Pa, View, HalfMap, Size, Walk, Clashes, Ragged, Counted, LayoutKeys, LayoutMapped;
      if !supported {
        return Err(GranuleUnsupported);
      }
      if enabled {
        return Err(AlreadyEnabled);
      }
      PoolBounds(p, tables, used, sh);
      var first := Alloc();
      if first.Err? {
        return Err(first.error);
      }
      var second := Alloc();
      if second.Err? {
        return Err(second.error);
      }
      sh := Shape(map[Pa(p.g, p.base, 0) := 0, Pa(p.g, p.base, 1) := 0], map[]);
      TwoRoots(p, tables);
      TwoRootsCounted(p, tables);
      LayoutKeysGrow(p, layout.Segments(p.g) + layout.Devices(), |layout.Segments(p.g)|);
      SegmentsInRange(p.g, layout);
      LayoutSplit(p.g, layout);
      r := MapSegments(layout.Segments(p.g));
      if r.Err? {
        return;
      }
      r := MapDevices(layout.Segments(p.g), layout.Devices());
      if r.Err? {
        return;
      }
      PoolBounds(p, tables, used, sh);
      CountedIs(p.g, Mem(), sh, used, LayoutKeys(p, 0, 1, layout.Segments(p.g) + layout.Devices()));
      LayoutAsLaidOut(p.g, layout, Mem(), Pa(p.g, p.base, 0), 0);
      LayoutAsLaidOut(p.g, layout, Mem(), Pa(p.g, p.base, 1), KERNEL_VA_OFFSET);
      enabled := true;
      root1 := second.value;
    }

    /** Open a physical range to the kernel at its alias, read-write. */
    method MapKernelWindow(start: nat, end: nat) returns (r: Outcome, ghost done: nat)
      requires Valid() && (enabled ==> RootTable(root1)) && end <= TWO_48
      modifies this`tables, this`used, this`sh
      ensures Valid() && SameRoots(old(sh), sh) && used >= old(used)
      ensures r == Err(Misaligned) <==> end <= start || start % Size(p.g) != 0 || end % Size(p.g) != 0
      ensures r == Err(NotEnabled) <==> r != Err(Misaligned) && !enabled
      ensures r.Err? && (r.error == Misaligned || r.error == NotEnabled) ==> done == 0
      ensures r.Ok? ==> done * Size(p.g) == end - start
      ensures r.Ok? ==> AliasOpen(p.g, Mem(), Pa(p.g, p.base, root1), start, end)
      ensures MapsRange(p.g, old(Mem()), Mem(), sh, Pa(p.g, p.base, root1), start + KERNEL_VA_OFFSET, start, done,
                        KernelAttrs(Rw))
      ensures r == Err(Overlap) ==> done * Size(p.g) < end - start
      ensures r == Err(Overlap) ==>
                Walk(p.g, old(Mem()), Pa(p.g, p.base, root1), start + KERNEL_VA_OFFSET + done * Size(p.g)) != 0
      ensures forall k: nat :: k < done ==>
                Walk(p.g, old(Mem()), Pa(p.g, p.base, root1), start + KERNEL_VA_OFFSET + k * Size(p.g)) == 0
      ensures r.Err? ==> r.error in {Misaligned, NotEnabled, Overlap, OutOfTables}
      ensures forall made: Keys :: Counted(p.g, old(Mem()), old(sh), old(used), made) ==>
                Counted(p.g, Mem(), sh, used,
                        made + RangeKeys(p.g, Pa(p.g, p.base, root1), start + KERNEL_VA_OFFSET, done))
      ensures r == Err(OutOfTables) ==> done * Size(p.g) < end - start
      ensures r == Err(OutOfTables) ==> forall made: Keys :: Counted(p.g, old(Mem()), old(sh), old(used), made) ==>
                2 + |made + RangeKeys(p.g, Pa(p.g, p.base, root1), start + KERNEL_VA_OFFSET, done + 1)| > p.len
      ensures end - start == Size(p.g) && r.Err? ==> tables == old(tables) && used == old(used) && sh == old(sh)
      ensures end - start == Size(p.g) && r != Err(Misaligned) && r != Err(NotEnabled) ==>
                RightAnswer(p, old(Mem()), old(used), Pa(p.g, p.base, root1), start + KERNEL_VA_OFFSET, r)
    {
      hide PoolOk, Pa, View, Walk, MapsRange, Leaf, KernelAttrs, Size, Counted, RangeKeys, AliasOpen;
      done := 0;
      RangeCounted(p.g, Mem(), sh, used, Pa(p.g, p.base, root1), start + KERNEL_VA_OFFSET);
      RangeStart(p.g, Mem(), sh, Pa(p.g, p.base, root1), start + KERNEL_VA_OFFSET, start, KernelAttrs(Rw));
      if end <= start || start % Size(p.g) != 0 || end % Size(p.g) != 0 {
        return Err(Misaligned), done;
      }
      if !enabled {
        return Err(NotEnabled), done;
      }
      AlignedSpan(p.g, start, end);
      AlignedAlias(p.g, start);
      HighHalf(start);
      r, done := MapRange(root1, start + KERNEL_VA_OFFSET, start, end - start, Rw);
      if r.Ok? {
        RangeOpen(p.g, old(Mem()), Mem(), sh, Pa(p.g, p.base, root1), start, end, done);
      }
    }
  }

  lemma SameTables(tables: seq<Table>)
    ensures DifferAt(tables, tables, [])
  {
  }

  ghost predicate ZeroRow(tables: seq<Table>, t: nat) {
    t < |tables| && forall k :: 0 <= k < |tables[t]| ==> tables[t][k] == 0
  }

  lemma PoolBounds(p: Place, tables: seq<Table>, used: nat, sh: Shape)
    requires PoolOk(p, tables, used, sh)
    ensures used <= p.len == |tables| && p.Ok() && Shaped(p, tables)
  {
    hide Forest;
  }

  lemma FreshRow(p: Place, tables: seq<Table>, used: nat, sh: Shape)
    requires PoolOk(p, tables, used, sh) && used < p.len
    ensures ZeroRow(tables, used)
  {
    hide Forest;
  }

  lemma ChainWalks(p: Place, a: Mem, b: Mem, c: Mem, sh0: Shape, sh: Shape)
    requires SameWalks(p, a, b, sh0) && SameWalks(p, b, c, sh) && SameRoots(sh0, sh)
    ensures SameWalks(p, a, c, sh0)
  {
    hide Walk;
  }

  lemma ChainMaps(p: Place, a: Mem, b: Mem, c: Mem, sh0: Shape, sh: Shape, root: nat, va: nat, e: nat)
    requires SameWalks(p, a, b, sh0) && SameRoots(sh0, sh) && MapsOne(p.g, b, c, sh, root, va, e)
    ensures MapsOne(p.g, a, c, sh, root, va, e)
  {
    hide Walk;
  }

  lemma LastStep(p: Place, tables: seq<Table>, used: nat, sh: Shape, root: nat, va: nat, t: nat)
    requires PoolOk(p, tables, used, sh) && t < used
    requires IsRoot(sh, root) && TableAt(p.g, View(p, tables), root, va, 3) == Some(Pa(p.g, p.base, t))
    ensures t < |tables| && |tables[t]| == Entries(p.g)
    ensures Walk(p.g, View(p, tables), root, va) == tables[t][Index(p.g, va, 3)]
  {
    hide Forest, PoolMem, Pa, Index;
    PoolMemAt(p.g, p.base, tables, t);
  }

  lemma LeafOk(p: Place, tables: seq<Table>, used: nat, sh: Shape, root: nat, va: nat, t: nat, e: nat)
    requires PoolOk(p, tables, used, sh) && t < used && t < |tables| && |tables[t]| == Entries(p.g)
    requires IsRoot(sh, root) && TableAt(p.g, View(p, tables), root, va, 3) == Some(Pa(p.g, p.base, t))
    ensures var tables' := PutWord(tables, t, Index(p.g, va, 3), e);
            PoolOk(p, tables', used, sh) && MapsOne(p.g, View(p, tables), View(p, tables'), sh, root, va, e)
  {
    hide Forest, PoolMem, Pa, Index, Walk;
    PutWordView(p, tables, t, Index(p.g, va, 3), e);
    LeafChangesOnePage(p.g, View(p, tables), sh, root, va, e);
  }

  // ---------------------------------------------------------------- ranges

  /** Exactly the first `n` pages from `va` are new, each mapped to the matching frame from `pa`. */
  ghost predicate MapsRange(g: Granule, before: Mem, after: Mem, sh: Shape, root: nat, va: nat, pa: nat, n: nat,
                            attrs: nat) {
    forall r, v :: IsRoot(sh, r) ==>
      Walk(g, after, r, v) ==
        if r == root && Page(g, va) <= Page(g, v) < Page(g, va) + n
        then Leaf(pa + (Page(g, v) - Page(g, va)) * Size(g), attrs) else Walk(g, before, r, v)
  }

  lemma RangeStart(g: Granule, mem: Mem, sh: Shape, root: nat, va: nat, pa: nat, attrs: nat)
    ensures MapsRange(g, mem, mem, sh, root, va, pa, 0, attrs)
  {
    hide Walk, Page, Leaf;
  }

  /** Page numbers advance by one per granule as long as the range stays in the address space. */
  lemma PageOf(g: Granule, va: nat, n: nat)
    requires va % TWO_48 + (n + 1) * Size(g) <= TWO_48
    ensures Page(g, va + n * Size(g)) == Page(g, va) + n
  {
    var low, hi, len := va % TWO_48, va / TWO_48, n * Size(g);
    OneMore(g, n);
    hide Size;
    Split48(va);
    Div48(va + len, hi, low + len);
    Steps(g, low, n);
  }

  lemma OneMore(g: Granule, n: nat)
    ensures (n + 1) * Size(g) == n * Size(g) + Size(g) && Size(g) > 0
  {
  }

  lemma Split48(va: nat)
    ensures va == TWO_48 * (va / TWO_48) + va % TWO_48
  {
  }

  lemma Steps(g: Granule, low: nat, n: nat)
    ensures (low + n * Size(g)) / Size(g) == low / Size(g) + n
  {
    match g
    case K4 => assert low + n * 4096 == 4096 * (low / 4096 + n) + low % 4096;
    case K16 => assert low + n * 16384 == 16384 * (low / 16384 + n) + low % 16384;
  }

  lemma NextPage(g: Granule, mem0: Mem, mem: Mem, sh: Shape, root: nat, va: nat, pa: nat, n: nat, attrs: nat)
    requires MapsRange(g, mem0, mem, sh, root, va, pa, n, attrs) && IsRoot(sh, root)
    requires va % TWO_48 + (n + 1) * Size(g) <= TWO_48
    ensures Walk(g, mem, root, va + n * Size(g)) == Walk(g, mem0, root, va + n * Size(g))
  {
    hide Walk, Page, Leaf;
    PageOf(g, va, n);
  }

  lemma RangeExtends(g: Granule, mem0: Mem, mem1: Mem, mem2: Mem, sh1: Shape, sh2: Shape,
                     root: nat, va: nat, pa: nat, n: nat, attrs: nat)
    requires MapsRange(g, mem0, mem1, sh1, root, va, pa, n, attrs) && SameRoots(sh1, sh2)
    requires MapsOne(g, mem1, mem2, sh2, root, va + n * Size(g), Leaf(pa + n * Size(g), attrs))
    requires va % TWO_48 + (n + 1) * Size(g) <= TWO_48
    ensures MapsRange(g, mem0, mem2, sh2, root, va, pa, n + 1, attrs)
  {
    hide Walk, Page, Leaf;
    PageOf(g, va, n);
  }

  /** The range does not wrap around the 48-bit address space. */
  predicate Straight(va: nat, len: nat) {
    va % TWO_48 + len <= TWO_48
  }

  /**
    If the range is straight, its first n pages are new and were free, and the next one was not if the range
    stopped with Overlap.
  */
  ghost predicate RangeMade(g: Granule, before: Mem, after: Mem, sh: Shape, root: nat, va: nat, pa: nat, len: nat,
                            n: nat, attrs: nat, r: Outcome) {
    Straight(va, len) ==>
      && MapsRange(g, before, after, sh, root, va, pa, n, attrs)
      && (forall k: nat :: k < n ==> Walk(g, before, root, va + k * Size(g)) == 0)
      && (r == Err(Overlap) ==> Walk(g, before, root, va + n * Size(g)) != 0)
  }

  /** The first n pages took their tables, and the pool was too small for the next if the range ran out of them. */
  ghost predicate RangeTold(p: Place, before: Mem, sh0: Shape, used0: nat, after: Mem, sh: Shape, used: nat, root: nat,
                            va: nat, n: nat, r: Outcome) {
    && (forall made: Keys :: Counted(p.g, before, sh0, used0, made) ==>
          Counted(p.g, after, sh, used, made + RangeKeys(p.g, root, va, n)))
    && (r == Err(OutOfTables) ==> forall made: Keys :: Counted(p.g, before, sh0, used0, made) ==>
          2 + |made + RangeKeys(p.g, root, va, n + 1)| > p.len)
  }

  lemma RangeBegins(p: Place, mem: Mem, sh: Shape, used: nat, root: nat, va: nat, pa: nat, len: nat, attrs: nat)
    ensures RangeMade(p.g, mem, mem, sh, root, va, pa, len, 0, attrs, Ok(()))
    ensures RangeMade(p.g, mem, mem, sh, root, va, pa, len, 0, attrs, Err(Misaligned))
    ensures RangeTold(p, mem, sh, used, mem, sh, used, root, va, 0, Ok(()))
    ensures RangeTold(p, mem, sh, used, mem, sh, used, root, va, 0, Err(Misaligned))
  {
    hide MapsRange, Walk, Counted, RangeKeys;
    RangeStart(p.g, mem, sh, root, va, pa, attrs);
    RangeCounted(p.g, mem, sh, used, root, va);
  }

  lemma StepOn(g: Granule, off: nat, len: nat, n: nat)
    requires off == n * Size(g) && off < len && (len - off) % Size(g) == 0
    ensures off + Size(g) <= len && (n + 1) * Size(g) == off + Size(g)
    ensures (len - (off + Size(g))) % Size(g) == 0
  {
    StepFits(g, 0, off, len, n);
  }

  /** One more page of a straight range. */
  lemma PageMade(p: Place, mem0: Mem, mem1: Mem, used1: nat, sh1: Shape, mem: Mem, sh: Shape, root: nat, va: nat,
                 pa: nat, len: nat, n: nat, attrs: nat, r: Outcome)
    requires (n + 1) * Size(p.g) <= len && IsRoot(sh1, root)
    requires RangeMade(p.g, mem0, mem1, sh1, root, va, pa, len, n, attrs, Ok(()))
    requires RightAnswer(p, mem1, used1, root, va + n * Size(p.g), r)
    requires r.Ok? ==>
               && SameRoots(sh1, sh)
               && MapsOne(p.g, mem1, mem, sh, root, va + n * Size(p.g), Leaf(pa + n * Size(p.g), attrs))
    ensures r.Ok? ==> RangeMade(p.g, mem0, mem, sh, root, va, pa, len, n + 1, attrs, Ok(()))
    ensures r.Err? ==> RangeMade(p.g, mem0, mem1, sh1, root, va, pa, len, n, attrs, r)
  {
    hide MapsRange, MapsOne, Walk, Leaf, Size, IsRoot, Missing;
    if Straight(va, len) {
      NextPage(p.g, mem0, mem1, sh1, root, va, pa, n, attrs);
      if r.Ok? {
        RangeExtends(p.g, mem0, mem1, mem, sh1, sh, root, va, pa, n, attrs);
      }
    }
  }

  lemma RangeCounted(g: Granule, mem: Mem, sh: Shape, used: nat, root: nat, va: nat)
    ensures forall made: Keys :: Counted(g, mem, sh, used, made) ==>
              Counted(g, mem, sh, used, made + RangeKeys(g, root, va, 0))
  {
    hide Counted, RangeKeys;
    forall made: Keys | Counted(g, mem, sh, used, made)
      ensures Counted(g, mem, sh, used, made + RangeKeys(g, root, va, 0))
    {
      CountedStart(g, mem, sh, used, root, va, made);
    }
  }

  /** One more page of a range: counted when it is mapped, and one too many when the pool is short of tables for it. */
  lemma PageCounted(p: Place, mem0: Mem, sh0: Shape, used0: nat, mem1: Mem, sh1: Shape, used1: nat, mem: Mem, sh: Shape,
                    used: nat, root: nat, va: nat, n: nat, r: Outcome)
    requires IsRoot(sh1, root) && RangeTold(p, mem0, sh0, used0, mem1, sh1, used1, root, va, n, Ok(()))
    requires RightAnswer(p, mem1, used1, root, va + n * Size(p.g), r)
    requires r.Ok? ==>
               && Grown(p.g, mem1, mem, sh1, root, va + n * Size(p.g), 3) && SameRoots(sh1, sh)
               && used == used1 + Missing(p.g, mem1, root, va + n * Size(p.g))
    ensures r.Ok? ==> RangeTold(p, mem0, sh0, used0, mem, sh, used, root, va, n + 1, Ok(()))
    ensures r.Err? ==> RangeTold(p, mem0, sh0, used0, mem1, sh1, used1, root, va, n, r)
  {
    hide Counted, RangeKeys, Grown, Missing, Walk, Size, IsRoot;
    forall made: Keys | Counted(p.g, mem0, sh0, used0, made)
      ensures r.Ok? ==> Counted(p.g, mem, sh, used, made + RangeKeys(p.g, root, va, n + 1))
      ensures r == Err(OutOfTables) ==> 2 + |made + RangeKeys(p.g, root, va, n + 1)| > p.len
    {
      if r.Ok? {
        CountedGrows(p.g, mem1, mem, sh1, used1, root, va, n, made);
        SameRootsCounted(p.g, mem, sh1, sh, used, made + RangeKeys(p.g, root, va, n + 1));
      }
      CountedShort(p.g, mem1, sh1, used1, root, va, n, made);
    }
  }

  lemma StepFits(g: Granule, va: nat, off: nat, len: nat, n: nat)
    requires off == n * Size(g) && off < len && (len - off) % Size(g) == 0
    ensures off + Size(g) <= len && (n + 1) * Size(g) == off + Size(g)
    ensures (len - (off + Size(g))) % Size(g) == 0
    ensures va % TWO_48 + len <= TWO_48 ==> va % TWO_48 + (n + 1) * Size(g) <= TWO_48
  {
    match g
    case K4 =>
      assert len - off == 4096 * ((len - off) / 4096);
    case K16 =>
      assert len - off == 16384 * ((len - off) / 16384);
  }

  // ---------------------------------------------------------------- the kernel layout

  datatype Segment = Segment(start: nat, end: nat, perm: KernelPerm)

  function AlignDown(g: Granule, a: nat): nat {
    a / Size(g) * Size(g)
  }

  function AlignUp(g: Granule, a: nat): nat {
    (a + Size(g) - 1) / Size(g) * Size(g)
  }

  datatype Range = Range(start: nat, end: nat) {
    predicate Has(a: nat) {
      start <= a < end
    }
  }

  /** What the linker script and the boot information fix: the kernel image, the DTB and the devices. */
  datatype KernelLayout = KernelLayout(text: Range, rodata: Range, rw0: Range, rw1: Range, dtb: Range,
                                       devices: seq<Range>) {

    function Segments(g: Granule): seq<Segment> {
      [ Segment(text.start, text.end, Text),
        Segment(rodata.start, rodata.end, Ro),
        Segment(rw0.start, rw0.end, Rw),
        Segment(rw1.start, rw1.end, Rw),
        Segment(AlignDown(g, dtb.start), AlignUp(g, dtb.end), Ro) ]
    }

    function Devices(): seq<Segment> {
      seq(|devices|, i requires 0 <= i < |devices| => Segment(devices[i].start, devices[i].end, Device))
    }

    predicate OnDevice(a: nat) {
      exists i :: 0 <= i < |devices| && devices[i].Has(a)
    }

    predicate InRange(g: Granule) {
      && text.end <= TWO_48 && rodata.end <= TWO_48 && rw0.end <= TWO_48 && rw1.end <= TWO_48
      && AlignUp(g, dtb.end) <= TWO_48
      && forall i :: 0 <= i < |devices| ==> devices[i].end <= TWO_48
    }
  }

  /** The leaf the layout asks for at a frame; 0 when no segment covers it. */
  function LeafFor(segs: seq<Segment>, f: nat): nat {
    if segs == [] then 0
    else
      var last := segs[|segs| - 1];
      if last.start <= f < last.end then Leaf(f, KernelAttrs(last.perm)) else LeafFor(segs[..|segs| - 1], f)
  }

  /** Through `root`, the frame at f is reached at f + off exactly as the segments say. */
  ghost predicate HalfMap(g: Granule, mem: Mem, root: nat, off: nat, segs: seq<Segment>) {
    forall f: nat :: IsFrame(g, f) ==> Walk(g, mem, root, f + off) == LeafFor(segs, f)
  }

  ghost predicate BothHalves(p: Place, mem: Mem, root0: nat, root1: nat, segs: seq<Segment>) {
    && HalfMap(p.g, mem, Pa(p.g, p.base, root0), 0, segs)
    && HalfMap(p.g, mem, Pa(p.g, p.base, root1), KERNEL_VA_OFFSET, segs)
  }

  /** A leaf of the kernel half: closed to EL0, and never writable and executable. */
  predicate KernelOnly(e: nat) {
    !ElZeroAccess(e) && UserNeverExecutes(e) && (ReadOnly(e) || KernelNeverExecutes(e))
  }

  /** Nothing the kernel maps for itself is open to EL0, or writable and executable at once. */
  lemma {:induction false} KernelMapsKeepWX(g: Granule, segs: seq<Segment>, f: nat)
    requires IsFrame(g, f) && LeafFor(segs, f) != 0
    ensures KernelOnly(LeafFor(segs, f))
  {
    hide Leaf, KernelAttrs, ElZeroAccess, UserNeverExecutes, ReadOnly, KernelNeverExecutes;
    if segs != [] {
      var last := segs[|segs| - 1];
      KernelPermsKeepWX(g, f, last.perm);
      if !(last.start <= f < last.end) {
        KernelMapsKeepWX(g, segs[..|segs| - 1], f);
      }
    }
  }

  /** Through a root that maps the segments at the alias, no address whatsoever is open to EL0. */
  lemma HalfClosed(g: Granule, mem: Mem, root: nat, segs: seq<Segment>, va: nat)
    requires HalfMap(g, mem, root, KERNEL_VA_OFFSET, segs) && Walk(g, mem, root, va) != 0
    ensures KernelOnly(Walk(g, mem, root, va))
  {
    hide Walk, LeafFor, ElZeroAccess, UserNeverExecutes, ReadOnly, KernelNeverExecutes;
    var f := Page(g, va) * Size(g);
    PageIsFrame(g, va);
    FramePage(g, f, KERNEL_VA_OFFSET);
    SamePageSameWalk(g, mem, root, va, f + KERNEL_VA_OFFSET);
    KernelMapsKeepWX(g, segs, f);
  }

  lemma PageIsFrame(g: Granule, va: nat)
    ensures IsFrame(g, Page(g, va) * Size(g)) && Page(g, va) * Size(g) / Size(g) == Page(g, va)
  {
  }

  lemma HighHalf(a: nat)
    requires a <= TWO_48
    ensures a < TWO_48 ==> (a + KERNEL_VA_OFFSET) % TWO_48 == a
  {
    assert a + KERNEL_VA_OFFSET == TWO_48 * 0xFFFF + a;
  }

  lemma FramePage(g: Granule, f: nat, off: nat)
    requires IsFrame(g, f) && (off == 0 || off == KERNEL_VA_OFFSET)
    ensures Page(g, f + off) == f / Size(g) && Page(g, f + off) * Size(g) == f
  {
    HighHalf(f);
  }

  /** The kernel reads and writes, and never executes, the frames from `start` to `end` at their alias. */
  ghost predicate AliasOpen(g: Granule, mem: Mem, root: nat, start: nat, end: nat) {
    forall f: nat :: IsFrame(g, f) && start <= f < end ==>
      KernelLeaf(g, Walk(g, mem, root, f + KERNEL_VA_OFFSET), f, false, false, false)
  }

  lemma RangeOpen(g: Granule, mem0: Mem, mem1: Mem, sh: Shape, root: nat, start: nat, end: nat, n: nat)
    requires IsRoot(sh, root) && start < end <= TWO_48 && start % Size(g) == 0 && n * Size(g) == end - start
    requires MapsRange(g, mem0, mem1, sh, root, start + KERNEL_VA_OFFSET, start, n, KernelAttrs(Rw))
    ensures AliasOpen(g, mem1, root, start, end)
  {
    hide Walk, Page, Leaf, KernelAttrs, KernelLeaf;
    FramePage(g, start, KERNEL_VA_OFFSET);
    forall f: nat | IsFrame(g, f) && start <= f < end
      ensures KernelLeaf(g, Walk(g, mem1, root, f + KERNEL_VA_OFFSET), f, false, false, false)
    {
      FramePage(g, f, KERNEL_VA_OFFSET);
      Inside(g, start, end, n, f);
      KernelLeafIs(g, f, Rw);
    }
  }

  lemma HalfExtends(g: Granule, mem0: Mem, mem1: Mem, sh: Shape, root: nat, off: nat, segs: seq<Segment>, seg: Segment,
                    n: nat)
    requires HalfMap(g, mem0, root, off, segs) && IsRoot(sh, root) && (off == 0 || off == KERNEL_VA_OFFSET)
    requires seg.start < seg.end <= TWO_48 && seg.start % Size(g) == 0 && n * Size(g) == seg.end - seg.start
    requires MapsRange(g, mem0, mem1, sh, root, seg.start + off, seg.start, n, KernelAttrs(seg.perm))
    ensures HalfMap(g, mem1, root, off, segs + [seg])
  {
    hide Walk, Page, Leaf, KernelAttrs;
    assert (segs + [seg])[..|segs|] == segs;
    FramePage(g, seg.start, off);
    forall f: nat | IsFrame(g, f)
      ensures Walk(g, mem1, root, f + off) == LeafFor(segs + [seg], f)
    {
      FramePage(g, f, off);
      Inside(g, seg.start, seg.end, n, f);
    }
  }

  lemma Inside(g: Granule, start: nat, end: nat, n: nat, f: nat)
    requires start % Size(g) == 0 && f % Size(g) == 0 && n * Size(g) == end - start && start <= end
    ensures start <= f < end <==> start / Size(g) <= f / Size(g) < start / Size(g) + n
    ensures start <= f ==> start + (f / Size(g) - start / Size(g)) * Size(g) == f
  {
    match g
    case K4 =>
      assert start == 4096 * (start / 4096) && f == 4096 * (f / 4096);
    case K16 =>
      assert start == 16384 * (start / 16384) && f == 16384 * (f / 16384);
  }

  lemma HalfKept(g: Granule, mem0: Mem, mem1: Mem, sh: Shape, root: nat, off: nat, segs: seq<Segment>,
                 other: nat, va: nat, pa: nat, n: nat, attrs: nat)
    requires HalfMap(g, mem0, root, off, segs) && IsRoot(sh, root) && root != other
    requires MapsRange(g, mem0, mem1, sh, other, va, pa, n, attrs)
    ensures HalfMap(g, mem1, root, off, segs)
  {
    hide Walk, Page, Leaf;
  }

  lemma RootsDiffer(p: Place, i: nat, j: nat)
    requires i != j
    ensures Pa(p.g, p.base, i) != Pa(p.g, p.base, j)
  {
    hide Pa;
    if Pa(p.g, p.base, i) == Pa(p.g, p.base, j) {
      PaInjective(p.g, p.base, i, j);
    }
  }

  /** A segment that is not made of whole granules. */
  predicate Ragged(g: Granule, seg: Segment) {
    seg.start < seg.end && (seg.start % Size(g) != 0 || seg.end % Size(g) != 0)
  }

  /** Refused as misaligned; an inverted range is refused for a segment and skipped for a device. */
  predicate Uneven(g: Granule, seg: Segment, strict: bool) {
    Ragged(g, seg) || (strict && seg.end < seg.start)
  }

  /** Some frame of the segment is already covered. */
  ghost predicate Clashes(g: Granule, segs: seq<Segment>, seg: Segment) {
    exists f: nat :: IsFrame(g, f) && seg.start <= f < seg.end && LeafFor(segs, f) != 0
  }

  ghost predicate LayoutUneven(g: Granule, layout: KernelLayout) {
    || (exists k :: 0 <= k < |layout.Segments(g)| && Uneven(g, layout.Segments(g)[k], true))
    || (exists k :: 0 <= k < |layout.Devices()| && Uneven(g, layout.Devices()[k], false))
  }

  /** Some segment or device covers a frame of an earlier one. */
  ghost predicate LayoutClashes(g: Granule, layout: KernelLayout) {
    var all := layout.Segments(g) + layout.Devices();
    exists k :: 0 <= k < |all| && Clashes(g, all[..k], all[k])
  }

  lemma LayoutSplit(g: Granule, layout: KernelLayout)
    ensures var segs, devs := layout.Segments(g), layout.Devices();
            LayoutClashes(g, layout) <==>
              || (exists k :: 0 <= k < |segs| && Clashes(g, segs[..k], segs[k]))
              || (exists k :: 0 <= k < |devs| && Clashes(g, segs + devs[..k], devs[k]))
  {
    hide Clashes;
    var segs, devs := layout.Segments(g), layout.Devices();
    var all := segs + devs;
    if LayoutClashes(g, layout) {
      var k :| 0 <= k < |all| && Clashes(g, all[..k], all[k]);
      if k < |segs| {
        assert all[..k] == segs[..k] && all[k] == segs[k];
      } else {
        var i := k - |segs|;
        assert all[..k] == segs + devs[..i] && all[k] == devs[i];
      }
    }
    forall k | 0 <= k < |segs| && Clashes(g, segs[..k], segs[k])
      ensures LayoutClashes(g, layout)
    {
      assert all[..k] == segs[..k] && all[k] == segs[k];
    }
    forall k | 0 <= k < |devs| && Clashes(g, segs + devs[..k], devs[k])
      ensures LayoutClashes(g, layout)
    {
      assert all[..k + |segs|] == segs + devs[..k] && all[k + |segs|] == devs[k];
    }
  }

  // ---------------------------------------------------------------- the layout as the hardware sees it

  ghost predicate Disjoint(g: Granule, segs: seq<Segment>) {
    forall k :: 0 <= k < |segs| ==> !Clashes(g, segs[..k], segs[k])
  }

  lemma DisjointPrefix(g: Granule, segs: seq<Segment>)
    requires Disjoint(g, segs) && segs != []
    ensures Disjoint(g, segs[..|segs| - 1])
  {
    hide Clashes;
    var init := segs[..|segs| - 1];
    forall k | 0 <= k < |init|
      ensures !Clashes(g, init[..k], init[k])
    {
      assert init[..k] == segs[..k];
    }
  }

  /** Without clashes the leaf of a frame is that of the segment it lies in, whichever that is. */
  lemma {:induction false} LeafOfSegment(g: Granule, segs: seq<Segment>, k: nat, f: nat)
    requires Disjoint(g, segs) && IsFrame(g, f) && k < |segs| && segs[k].start <= f < segs[k].end
    ensures LeafFor(segs, f) == Leaf(f, KernelAttrs(segs[k].perm))
  {
    hide Leaf, KernelAttrs, Disjoint;
    var n := |segs| - 1;
    if k < n {
      DisjointPrefix(g, segs);
      LeafOfSegment(g, segs[..n], k, f);
      KernelLeafIs(g, f, segs[k].perm);
      if segs[n].start <= f < segs[n].end {
        assert Clashes(g, segs[..n], segs[n]);
        LastApart(g, segs);
      }
    }
  }

  lemma LastApart(g: Granule, segs: seq<Segment>)
    requires Disjoint(g, segs) && segs != []
    ensures !Clashes(g, segs[..|segs| - 1], segs[|segs| - 1])
  {
    hide Clashes;
  }

  lemma {:induction false} LeafNowhere(segs: seq<Segment>, f: nat)
    requires forall k :: 0 <= k < |segs| ==> !(segs[k].start <= f < segs[k].end)
    ensures LeafFor(segs, f) == 0
  {
    hide Leaf, KernelAttrs;
    if segs != [] {
      LeafNowhere(segs[..|segs| - 1], f);
    }
  }

  /**
    What the leaf of the frame `f` must be: the text executable and read-only, the rest of the image never
    executable, `.rodata` and every granule the DTB touches read-only, devices mapped as device memory,
    and nothing else mapped at all.
  */
  ghost predicate LeafAsLaidOut(g: Granule, layout: KernelLayout, f: nat, e: nat) {
    var dtb := f < layout.dtb.end && layout.dtb.start < f + Size(g);
    && (layout.text.Has(f) ==> KernelLeaf(g, e, f, true, true, false))
    && (layout.rodata.Has(f) || dtb ==> KernelLeaf(g, e, f, true, false, false))
    && (layout.rw0.Has(f) || layout.rw1.Has(f) ==> KernelLeaf(g, e, f, false, false, false))
    && (layout.OnDevice(f) ==> KernelLeaf(g, e, f, false, false, true))
    && (e != 0 ==>
          || layout.text.Has(f) || layout.rodata.Has(f) || dtb || layout.rw0.Has(f) || layout.rw1.Has(f)
          || layout.OnDevice(f))
  }

  /** Through `root`, every frame of the layout is found at `off` above its address as laid out. */
  ghost predicate LayoutMapped(g: Granule, layout: KernelLayout, mem: Mem, root: nat, off: nat) {
    forall f: nat :: IsFrame(g, f) ==> LeafAsLaidOut(g, layout, f, Walk(g, mem, root, f + off))
  }

  lemma DtbGranules(g: Granule, start: nat, end: nat, f: nat)
    requires f % Size(g) == 0
    ensures AlignDown(g, start) <= f < AlignUp(g, end) <==> f < end && start < f + Size(g)
  {
    match g
    case K4 => assert f == 4096 * (f / 4096);
    case K16 => assert f == 16384 * (f / 16384);
  }

  lemma LaidOut(g: Granule, layout: KernelLayout, f: nat)
    requires !LayoutClashes(g, layout) && IsFrame(g, f)
    ensures LeafAsLaidOut(g, layout, f, LeafFor(layout.Segments(g) + layout.Devices(), f))
  {
    hide Clashes, Leaf, KernelAttrs, KernelLeaf, LeafFor, AlignDown, AlignUp, Size;
    var segs := layout.Segments(g) + layout.Devices();
    assert Disjoint(g, segs);
    hide Disjoint, LayoutClashes;
    DtbGranules(g, layout.dtb.start, layout.dtb.end, f);
    forall k | 0 <= k < |segs| && segs[k].start <= f < segs[k].end
      ensures var p := segs[k].perm;
              KernelLeaf(g, LeafFor(segs, f), f, p == Text || p == Ro, p == Text, p == Device)
    {
      LeafOfSegment(g, segs, k, f);
      KernelLeafIs(g, f, segs[k].perm);
    }
    assert segs[0].perm == Text && segs[1].perm == segs[4].perm == Ro && segs[2].perm == segs[3].perm == Rw;
    forall i | 0 <= i < |layout.devices|
      ensures segs[5 + i] == Segment(layout.devices[i].start, layout.devices[i].end, Device)
    {
    }
    if forall k :: 0 <= k < |segs| ==> !(segs[k].start <= f < segs[k].end) {
      LeafNowhere(segs, f);
    } else {
      var k :| 0 <= k < |segs| && segs[k].start <= f < segs[k].end;
      if k >= 5 {
        assert layout.devices[k - 5].Has(f);
      }
    }
  }

  lemma LayoutAsLaidOut(g: Granule, layout: KernelLayout, mem: Mem, root: nat, off: nat)
    requires !LayoutClashes(g, layout) && HalfMap(g, mem, root, off, layout.Segments(g) + layout.Devices())
    ensures LayoutMapped(g, layout, mem, root, off)
  {
    hide LayoutClashes, LeafFor, LeafAsLaidOut, Walk;
    forall f: nat | IsFrame(g, f)
      ensures LeafAsLaidOut(g, layout, f, Walk(g, mem, root, f + off))
    {
      LaidOut(g, layout, f);
    }
  }

  // ---------------------------------------------------------------- how many tables a layout takes

  function SegmentKeys(p: Place, root0: nat, root1: nat, seg: Segment): Keys {
    if seg.end <= seg.start then {}
    else
      var n: nat := (seg.end - seg.start) / Size(p.g);
      RangeKeys(p.g, Pa(p.g, p.base, root0), seg.start, n)
      + RangeKeys(p.g, Pa(p.g, p.base, root1), seg.start + KERNEL_VA_OFFSET, n)
  }

  /** The tables below the two roots that the segments take, in both halves. */
  function LayoutKeys(p: Place, root0: nat, root1: nat, segs: seq<Segment>): Keys {
    if segs == [] then {}
    else LayoutKeys(p, root0, root1, segs[..|segs| - 1]) + SegmentKeys(p, root0, root1, segs[|segs| - 1])
  }

  /** Two roots, and one table for every prefix of the indices of a page of the layout, in each half. */
  function TablesNeeded(p: Place, layout: KernelLayout): nat {
    2 + |LayoutKeys(p, 0, 1, layout.Segments(p.g) + layout.Devices())|
  }

  /** Whole granules, no frame twice, and enough tables in the pool. */
  ghost predicate LayoutFits(p: Place, layout: KernelLayout) {
    !LayoutUneven(p.g, layout) && !LayoutClashes(p.g, layout) && TablesNeeded(p, layout) <= p.len
  }

  lemma LayoutKeysMore(p: Place, root0: nat, root1: nat, segs: seq<Segment>, seg: Segment)
    ensures LayoutKeys(p, root0, root1, segs + [seg]) ==
            LayoutKeys(p, root0, root1, segs) + SegmentKeys(p, root0, root1, seg)
  {
    hide SegmentKeys;
    assert (segs + [seg])[..|segs|] == segs;
  }

  lemma {:induction false} LayoutKeysGrow(p: Place, segs: seq<Segment>, k: nat)
    requires k <= |segs|
    ensures LayoutKeys(p, 0, 1, segs[..k]) <= LayoutKeys(p, 0, 1, segs)
    ensures |LayoutKeys(p, 0, 1, segs[..k])| <= |LayoutKeys(p, 0, 1, segs)|
    decreases |segs|
  {
    hide SegmentKeys;
    if k < |segs| {
      var init := segs[..|segs| - 1];
      LayoutKeysGrow(p, init, k);
      assert init[..k] == segs[..k];
    } else {
      assert segs[..k] == segs;
    }
    SmallerSet(LayoutKeys(p, 0, 1, segs[..k]), LayoutKeys(p, 0, 1, segs));
  }

  lemma EmptyKeys(p: Place, segs: seq<Segment>, seg: Segment)
    requires seg.end <= seg.start
    ensures LayoutKeys(p, 0, 1, segs + [seg]) == LayoutKeys(p, 0, 1, segs)
  {
    LayoutKeysMore(p, 0, 1, segs, seg);
    hide LayoutKeys;
  }

  /** The identity half of the segment is already too much for the pool. */
  lemma LowShort(p: Place, root0: nat, root1: nat, segs: seq<Segment>, seg: Segment, n: nat)
    requires n * Size(p.g) < seg.end - seg.start && (seg.end - seg.start) % Size(p.g) == 0
    requires 2 + |LayoutKeys(p, root0, root1, segs) + RangeKeys(p.g, Pa(p.g, p.base, root0), seg.start, n + 1)| > p.len
    ensures 2 + |LayoutKeys(p, root0, root1, segs + [seg])| > p.len
  {
    LayoutKeysMore(p, root0, root1, segs, seg);
    hide LayoutKeys, RangeKeys, Pa;
    var all: nat := (seg.end - seg.start) / Size(p.g);
    PagesBefore(p.g, n, seg.end - seg.start);
    RangeKeysGrow(p.g, Pa(p.g, p.base, root0), seg.start, n + 1, all);
    SmallerSet(LayoutKeys(p, root0, root1, segs) + RangeKeys(p.g, Pa(p.g, p.base, root0), seg.start, n + 1),
               LayoutKeys(p, root0, root1, segs + [seg]));
  }

  lemma AlignedOffset(g: Granule, a: nat, off: nat)
    requires off == 0 || off == KERNEL_VA_OFFSET
    ensures (a + off) % Size(g) == 0 <==> a % Size(g) == 0
  {
    match g
    case K4 => assert KERNEL_VA_OFFSET == 4096 * (KERNEL_VA_OFFSET / 4096);
    case K16 => assert KERNEL_VA_OFFSET == 16384 * (KERNEL_VA_OFFSET / 16384);
  }

  lemma EvenLength(g: Granule, seg: Segment)
    requires !Ragged(g, seg) && seg.start < seg.end
    ensures (seg.end - seg.start) % Size(g) == 0
  {
    RaggedIs(g, seg);
  }

  lemma FewerPages(g: Granule, n: nat, n0: nat, len: nat)
    requires n0 * Size(g) == len && n * Size(g) <= len
    ensures n <= n0 && (n * Size(g) < len <==> n < n0)
  {
  }

  lemma PagesBefore(g: Granule, n: nat, len: nat)
    requires n * Size(g) < len && len % Size(g) == 0
    ensures n + 1 <= len / Size(g)
  {
  }

  /** The alias half, after the identity half is mapped. */
  lemma HighCounted(p: Place, root0: nat, root1: nat, segs: seq<Segment>, seg: Segment, n0: nat, n: nat)
    requires n0 * Size(p.g) == seg.end - seg.start > 0 && n * Size(p.g) <= seg.end - seg.start
    ensures var low := LayoutKeys(p, root0, root1, segs) + RangeKeys(p.g, Pa(p.g, p.base, root0), seg.start, n0);
            var a1, all := Pa(p.g, p.base, root1), LayoutKeys(p, root0, root1, segs + [seg]);
            && (n == n0 ==> low + RangeKeys(p.g, a1, seg.start + KERNEL_VA_OFFSET, n) == all)
            && (n < n0 ==> |low + RangeKeys(p.g, a1, seg.start + KERNEL_VA_OFFSET, n + 1)| <= |all|)
  {
    LayoutKeysMore(p, root0, root1, segs, seg);
    hide LayoutKeys, RangeKeys, Pa;
    Quotients(p.g, n0, seg.end - seg.start);
    var low := LayoutKeys(p, root0, root1, segs) + RangeKeys(p.g, Pa(p.g, p.base, root0), seg.start, n0);
    var a1 := Pa(p.g, p.base, root1);
    if n < n0 {
      RangeKeysGrow(p.g, a1, seg.start + KERNEL_VA_OFFSET, n + 1, n0);
      SmallerSet(low + RangeKeys(p.g, a1, seg.start + KERNEL_VA_OFFSET, n + 1),
                 LayoutKeys(p, root0, root1, segs + [seg]));
    }
  }

  lemma Quotients(g: Granule, n: nat, len: nat)
    requires n * Size(g) == len
    ensures len / Size(g) == n && len % Size(g) == 0
  {
  }

  lemma CountedIs(g: Granule, mem: Mem, sh: Shape, used: nat, made: Keys)
    requires Counted(g, mem, sh, used, made)
    ensures used == 2 + |made|
  {
  }

  lemma TwoRootsCounted(p: Place, tables: seq<Table>)
    requires p.Ok() && p.len >= 2 && Shaped(p, tables) && ZeroFrom(tables, 0)
    ensures var a, b := Pa(p.g, p.base, 0), Pa(p.g, p.base, 1);
            Counted(p.g, View(p, tables), Shape(map[a := 0, b := 0], map[]), 2, LayoutKeys(p, 0, 1, []))
  {
    var a, b := Pa(p.g, p.base, 0), Pa(p.g, p.base, 1);
    hide Pa, Index, PoolMem;
    var mem, sh := View(p, tables), Shape(map[a := 0, b := 0], map[]);
    PoolMemAt(p.g, p.base, tables, 0);
    PoolMemAt(p.g, p.base, tables, 1);
    forall r: nat, v: nat, k: nat | 1 <= k <= 3 && IsRoot(sh, r)
      ensures TableAt(p.g, mem, r, v, k).None?
    {
      NothingBelow(p.g, mem, r, v, k);
    }
  }

  lemma {:induction false} NothingBelow(g: Granule, mem: Mem, root: nat, va: nat, k: nat)
    requires root in mem && (forall i :: 0 <= i < |mem[root]| ==> mem[root][i] == 0) && 1 <= k <= 3
    ensures TableAt(g, mem, root, va, k).None?
  {
    hide Index, AddrOf;
    TypeBitsAre(0);
    if k == 1 {
      assert TableAt(g, mem, root, va, 0) == Some(root);
    } else {
      NothingBelow(g, mem, root, va, k - 1);
    }
  }

  lemma RaggedIs(g: Granule, seg: Segment)
    ensures seg.start < seg.end ==>
              (Ragged(g, seg) <==> seg.start % Size(g) != 0 || (seg.end - seg.start) % Size(g) != 0)
    ensures seg.end <= seg.start ==> !Ragged(g, seg)
  {
    match g
    case K4 =>
    case K16 =>
  }

  lemma ClashAt(g: Granule, mem: Mem, root: nat, off: nat, segs: seq<Segment>, seg: Segment, n: nat)
    requires HalfMap(g, mem, root, off, segs) && (off == 0 || off == KERNEL_VA_OFFSET)
    requires seg.start % Size(g) == 0 && n * Size(g) < seg.end - seg.start && seg.end <= TWO_48
    requires Walk(g, mem, root, seg.start + off + n * Size(g)) != 0
    ensures Clashes(g, segs, seg)
  {
    hide Walk, LeafFor;
    var f := seg.start + n * Size(g);
    AlignedPlus(g, seg.start, n);
    assert f + off == seg.start + off + n * Size(g);
    assert IsFrame(g, f) && LeafFor(segs, f) != 0;
  }

  lemma AlignedPlus(g: Granule, a: nat, n: nat)
    requires a % Size(g) == 0
    ensures (a + n * Size(g)) % Size(g) == 0
  {
    match g
    case K4 => assert a + n * 4096 == 4096 * (a / 4096 + n);
    case K16 => assert a + n * 16384 == 16384 * (a / 16384 + n);
  }

  lemma NoClash(g: Granule, mem: Mem, root: nat, off: nat, segs: seq<Segment>, seg: Segment, n: nat)
    requires HalfMap(g, mem, root, off, segs) && seg.start % Size(g) == 0 && n * Size(g) == seg.end - seg.start
    requires forall k: nat :: k < n ==> Walk(g, mem, root, seg.start + off + k * Size(g)) == 0
    ensures !Clashes(g, segs, seg)
  {
    hide Walk, LeafFor;
    forall f: nat | IsFrame(g, f) && seg.start <= f < seg.end
      ensures LeafFor(segs, f) == 0
    {
      Inside(g, seg.start, seg.end, n, f);
      var k: nat := f / Size(g) - seg.start / Size(g);
      assert f + off == seg.start + off + k * Size(g);
    }
  }

  ghost predicate MapError(r: Outcome) {
    r.Err? ==> r.error == Misaligned || r.error == Overlap || r.error == OutOfTables
  }

  lemma AlignedSpan(g: Granule, start: nat, end: nat)
    requires start % Size(g) == 0 && end % Size(g) == 0 && start <= end
    ensures (end - start) % Size(g) == 0
  {
    match g
    case K4 =>
      assert end - start == 4096 * (end / 4096 - start / 4096);
    case K16 =>
      assert end - start == 16384 * (end / 16384 - start / 16384);
  }

  lemma AlignedAlias(g: Granule, start: nat)
    requires start % Size(g) == 0
    ensures (start + KERNEL_VA_OFFSET) % Size(g) == 0
  {
    match g
    case K4 =>
      assert start + KERNEL_VA_OFFSET == 4096 * (start / 4096 + 0xF_FFF0_0000_0000);
    case K16 =>
      assert start + KERNEL_VA_OFFSET == 16384 * (start / 16384 + 0x3_FFFC_0000_0000);
  }

  lemma EmptySegment(p: Place, mem: Mem, segs: seq<Segment>, seg: Segment)
    requires BothHalves(p, mem, 0, 1, segs) && seg.end <= seg.start
    ensures BothHalves(p, mem, 0, 1, segs + [seg])
  {
    hide Walk, Pa, Leaf;
    assert (segs + [seg])[..|segs|] == segs;
  }

  lemma SegmentsInRange(g: Granule, layout: KernelLayout)
    requires layout.InRange(g)
    ensures forall i :: 0 <= i < |layout.Segments(g)| ==> layout.Segments(g)[i].end <= TWO_48
    ensures forall i :: 0 <= i < |layout.Devices()| ==> layout.Devices()[i].end <= TWO_48
  {
  }

  /** Two clear tables are the roots of two empty halves. */
  lemma TwoRoots(p: Place, tables: seq<Table>)
    requires p.Ok() && p.len >= 2 && Shaped(p, tables) && ZeroFrom(tables, 0)
    ensures var a, b := Pa(p.g, p.base, 0), Pa(p.g, p.base, 1);
            var sh := Shape(map[a := 0, b := 0], map[]);
            PoolOk(p, tables, 2, sh) && IsRoot(sh, a) && IsRoot(sh, b) && BothHalves(p, View(p, tables), 0, 1, [])
  {
    var a, b := Pa(p.g, p.base, 0), Pa(p.g, p.base, 1);
    var sh := Shape(map[a := 0, b := 0], map[]);
    PaIsFrame(p.g, p.base, 0, p.len);
    PaIsFrame(p.g, p.base, 1, p.len);
    PoolMemAt(p.g, p.base, tables, 0);
    PoolMemAt(p.g, p.base, tables, 1);
    hide Pa, PoolMem, IsFrame, Size, Entries;
    RootsUsed(p);
    RootsForest(p.g, View(p, tables), a, b);
    hide Forest;
    forall f: nat
      ensures Walk(p.g, View(p, tables), a, f) == 0 && Walk(p.g, View(p, tables), b, f + KERNEL_VA_OFFSET) == 0
    {
      EmptyRoot(p.g, View(p, tables), a, f);
      EmptyRoot(p.g, View(p, tables), b, f + KERNEL_VA_OFFSET);
    }
    hide Walk;
  }

  lemma RootsUsed(p: Place)
    ensures var a, b := Pa(p.g, p.base, 0), Pa(p.g, p.base, 1);
            UsedAre(p, 2, Shape(map[a := 0, b := 0], map[]))
  {
    hide Pa;
  }

  lemma RootsForest(g: Granule, mem: Mem, a: nat, b: nat)
    requires a in mem && b in mem && |mem[a]| == Entries(g) && |mem[b]| == Entries(g) && IsFrame(g, a) && IsFrame(g, b)
    requires forall i :: 0 <= i < |mem[a]| ==> mem[a][i] == 0
    requires forall i :: 0 <= i < |mem[b]| ==> mem[b][i] == 0
    ensures Forest(g, mem, Shape(map[a := 0, b := 0], map[]))
  {
    hide IsFrame, Entries;
  }

  lemma EmptyRoot(g: Granule, mem: Mem, root: nat, va: nat)
    requires root in mem && forall i :: 0 <= i < |mem[root]| ==> mem[root][i] == 0
    ensures Walk(g, mem, root, va) == 0
  {
    hide Index, AddrOf, TypeBits;
    TypeBitsAre(0);
    assert TableAt(g, mem, root, va, 0) == Some(root);
    assert TableAt(g, mem, root, va, 1) == None;
    assert TableAt(g, mem, root, va, 2) == None;
  }
}
