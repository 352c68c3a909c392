/**
  How many tables a set of mapped pages takes: one for every prefix of its indices.  A mapping makes the
  tables of its own page and no others, so the tables in use can be counted without looking at them.
*/
module Tallies {
  import opened Abi
  import opened Descriptors
  import opened Tables

  /** The indices that lead to the table of an address after k steps. */
  function Trail(g: Granule, va: nat, k: nat): seq<nat>
    requires k <= 3
  {
    seq(k, i requires 0 <= i < k => Index(g, va, i))
  }

  /** Tables below a root, each by its root and the indices that lead to it. */
  type Keys = set<(nat, seq<nat>)>

  lemma {:induction false} SameTrail(g: Granule, mem: Mem, r: nat, va: nat, va': nat, k: nat)
    requires k <= 3 && Trail(g, va, k) == Trail(g, va', k)
    ensures TableAt(g, mem, r, va, k) == TableAt(g, mem, r, va', k)
  {
    hide Index, Descend;
    if k > 0 {
      assert Trail(g, va, k)[k - 1] == Index(g, va, k - 1) && Trail(g, va', k)[k - 1] == Index(g, va', k - 1);
      assert Trail(g, va, k)[..k - 1] == Trail(g, va, k - 1) && Trail(g, va', k)[..k - 1] == Trail(g, va', k - 1);
      SameTrail(g, mem, r, va, va', k - 1);
    }
  }

  // ---------------------------------------------------------------- what one mapping makes

  /** The tables of `mem` are those of `mem0` and the ones on the first `level` steps to `va` below `root`. */
  ghost predicate Grown(g: Granule, mem0: Mem, mem: Mem, sh: Shape, root: nat, va: nat, level: nat)
    requires level <= 3
  {
    forall r, v, k: nat :: k <= 3 && IsRoot(sh, r) ==>
      (TableAt(g, mem, r, v, k).Some? <==>
         TableAt(g, mem0, r, v, k).Some? || (r == root && k <= level && Trail(g, v, k) == Trail(g, va, k)))
  }

  lemma GrownStart(g: Granule, mem: Mem, sh: Shape, root: nat, va: nat)
    ensures Grown(g, mem, mem, sh, root, va, 0)
  {
    hide Index, Descend;
  }

  lemma GrownFollows(g: Granule, mem0: Mem, mem: Mem, sh: Shape, root: nat, va: nat, level: nat)
    requires level < 3 && Grown(g, mem0, mem, sh, root, va, level) && TableAt(g, mem, root, va, level + 1).Some?
    ensures Grown(g, mem0, mem, sh, root, va, level + 1)
  {
    hide Index, TableAt, Trail;
    forall r, v, k: nat | k <= 3 && IsRoot(sh, r)
      ensures TableAt(g, mem, r, v, k).Some? <==>
                TableAt(g, mem0, r, v, k).Some? || (r == root && k <= level + 1 && Trail(g, v, k) == Trail(g, va, k))
    {
      if r == root && k == level + 1 && Trail(g, v, k) == Trail(g, va, k) {
        SameTrail(g, mem, r, v, va, k);
      }
    }
  }

  lemma GrownLinks(g: Granule, mem0: Mem, mem: Mem, sh: Shape, root: nat, va: nat, level: nat, t: nat, c: nat)
    requires level < 3 && Grown(g, mem0, mem, sh, root, va, level) && Forest(g, mem, sh) && IsRoot(sh, root)
    requires TableAt(g, mem, root, va, level) == Some(t) && t in sh.level && sh.level[t] == level
    requires t in mem && Index(g, va, level) < |mem[t]| && mem[t][Index(g, va, level)] == 0 && FreshTable(g, mem, sh, c)
    ensures Grown(g, mem0, SetEntry(mem, t, Index(g, va, level), Link(c)), sh, root, va, level + 1)
  {
    hide Index, TableAt, Forest, FreshTable, Trail, Link;
    var i, mem' := Index(g, va, level), SetEntry(mem, t, Index(g, va, level), Link(c));
    forall r, v, k: nat | k <= 3 && IsRoot(sh, r)
      ensures TableAt(g, mem', r, v, k).Some? <==>
                TableAt(g, mem0, r, v, k).Some? || (r == root && k <= level + 1 && Trail(g, v, k) == Trail(g, va, k))
    {
      LinkTables(g, mem, sh, t, i, c, r, v, k);
      if k == level + 1 {
        NewStep(g, mem, sh, root, va, level, t, r, v);
      }
    }
  }

  /** The walk stands in `t` and goes on to the same entry exactly on the same steps from the same root. */
  lemma NewStep(g: Granule, mem: Mem, sh: Shape, root: nat, va: nat, level: nat, t: nat, r: nat, v: nat)
    requires level < 3 && Forest(g, mem, sh) && IsRoot(sh, root) && IsRoot(sh, r)
    requires TableAt(g, mem, root, va, level) == Some(t)
    ensures TableAt(g, mem, r, v, level) == Some(t) && Index(g, v, level) == Index(g, va, level) <==>
            r == root && Trail(g, v, level + 1) == Trail(g, va, level + 1)
  {
    hide Index, TableAt, Forest;
    if TableAt(g, mem, r, v, level) == Some(t) && Index(g, v, level) == Index(g, va, level) {
      PathUnique(g, mem, sh, root, va, r, v, level);
    }
    if r == root && Trail(g, v, level + 1) == Trail(g, va, level + 1) {
      var a, b := Trail(g, v, level + 1), Trail(g, va, level + 1);
      assert a[level] == Index(g, v, level) && b[level] == Index(g, va, level);
      assert a[..level] == Trail(g, v, level) && b[..level] == Trail(g, va, level);
      SameTrail(g, mem, r, v, va, level);
    }
  }

  lemma GrownLeaf(g: Granule, mem0: Mem, mem: Mem, sh: Shape, root: nat, va: nat, t: nat, i: nat, e: nat)
    requires Grown(g, mem0, mem, sh, root, va, 3) && Forest(g, mem, sh)
    requires t in sh.level && sh.level[t] == 3 && t in mem && i < |mem[t]|
    ensures Grown(g, mem0, SetEntry(mem, t, i, e), sh, root, va, 3)
  {
    hide Index, TableAt, Forest, Trail;
    var mem' := SetEntry(mem, t, i, e);
    forall r, v, k: nat | k <= 3 && IsRoot(sh, r)
      ensures TableAt(g, mem', r, v, k).Some? <==>
                TableAt(g, mem0, r, v, k).Some? || (r == root && k <= 3 && Trail(g, v, k) == Trail(g, va, k))
    {
      LeafKeepsTables(g, mem, sh, t, i, e, r, v, k);
    }
  }

  // ---------------------------------------------------------------- the tally

  /** Below the roots there are exactly the tables in `made`. */
  ghost predicate Tally(g: Granule, mem: Mem, sh: Shape, made: Keys) {
    forall r: nat, v: nat, k: nat :: 1 <= k <= 3 && IsRoot(sh, r) ==>
      (TableAt(g, mem, r, v, k).Some? <==> (r, Trail(g, v, k)) in made)
  }

  function PageKeys(g: Granule, root: nat, va: nat): Keys {
    {(root, Trail(g, va, 1)), (root, Trail(g, va, 2)), (root, Trail(g, va, 3))}
  }

  /** A mapping makes the tables of its page, as many as were missing. */
  lemma TallyGrows(g: Granule, mem0: Mem, mem: Mem, sh: Shape, root: nat, va: nat, made: Keys)
    requires Grown(g, mem0, mem, sh, root, va, 3) && Tally(g, mem0, sh, made) && IsRoot(sh, root)
    ensures Tally(g, mem, sh, made + PageKeys(g, root, va))
    ensures |made + PageKeys(g, root, va)| == |made| + Missing(g, mem0, root, va)
  {
    TallyCounts(g, mem0, sh, root, va, made);
    hide Index, TableAt, Missing;
    forall r: nat, v: nat, k: nat | 1 <= k <= 3 && IsRoot(sh, r)
      ensures TableAt(g, mem, r, v, k).Some? <==> (r, Trail(g, v, k)) in made + PageKeys(g, root, va)
    {
      assert |Trail(g, v, k)| == k;
    }
  }

  lemma TallyCounts(g: Granule, mem: Mem, sh: Shape, root: nat, va: nat, made: Keys)
    requires Tally(g, mem, sh, made) && IsRoot(sh, root)
    ensures |made + PageKeys(g, root, va)| == |made| + Missing(g, mem, root, va)
  {
    hide Index, Descend, Trail;
    TablesNest(g, mem, root, va);
    TrailsDiffer(g, va);
    assert forall k: nat :: 1 <= k <= 3 ==> (TableAt(g, mem, root, va, k).Some? <==> (root, Trail(g, va, k)) in made);
    hide TableAt, Tally;
    AddThree(made, (root, Trail(g, va, 1)), (root, Trail(g, va, 2)), (root, Trail(g, va, 3)));
  }

  lemma TablesNest(g: Granule, mem: Mem, root: nat, va: nat)
    ensures TableAt(g, mem, root, va, 3).Some? ==> TableAt(g, mem, root, va, 2).Some?
    ensures TableAt(g, mem, root, va, 2).Some? ==> TableAt(g, mem, root, va, 1).Some?
  {
    hide Index, Descend;
  }

  lemma TrailsDiffer(g: Granule, va: nat)
    ensures |Trail(g, va, 1)| == 1 && |Trail(g, va, 2)| == 2 && |Trail(g, va, 3)| == 3
  {
  }

  lemma AddThree<T>(s: set<T>, a: T, b: T, c: T)
    requires a != b && b != c && a != c && (c in s ==> b in s) && (b in s ==> a in s)
    ensures |s + {a, b, c}| == |s| + if a !in s then 3 else if b !in s then 2 else if c !in s then 1 else 0
  {
    if a !in s {
      assert s + {a, b, c} == s + {a} + {b} + {c};
    } else if b !in s {
      assert s + {a, b, c} == s + {b} + {c};
    } else if c !in s {
      assert s + {a, b, c} == s + {c};
    } else {
      assert s + {a, b, c} == s;
    }
  }

  // ---------------------------------------------------------------- ranges of pages

  /** The tables that n consecutive pages take. */
  function RangeKeys(g: Granule, root: nat, va: nat, n: nat): Keys {
    if n == 0 then {} else RangeKeys(g, root, va, n - 1) + PageKeys(g, root, va + (n - 1) * Size(g))
  }

  lemma {:induction false} RangeKeysGrow(g: Granule, root: nat, va: nat, m: nat, n: nat)
    requires m <= n
    ensures RangeKeys(g, root, va, m) <= RangeKeys(g, root, va, n)
    decreases n
  {
    hide PageKeys, Size;
    if m < n {
      RangeKeysGrow(g, root, va, m, n - 1);
    }
  }

  lemma KeysNext(g: Granule, root: nat, va: nat, n: nat, made: Keys)
    ensures made + RangeKeys(g, root, va, n) + PageKeys(g, root, va + n * Size(g)) ==
            made + RangeKeys(g, root, va, n + 1)
  {
    hide PageKeys, Size;
  }

  /** The tables in use are two roots and the tables in `made`. */
  ghost predicate Counted(g: Granule, mem: Mem, sh: Shape, used: nat, made: Keys) {
    Tally(g, mem, sh, made) && used == 2 + |made|
  }

  lemma CountedGrows(g: Granule, mem0: Mem, mem: Mem, sh: Shape, used: nat, root: nat, va: nat, n: nat, made: Keys)
    requires Grown(g, mem0, mem, sh, root, va + n * Size(g), 3) && IsRoot(sh, root)
    requires Counted(g, mem0, sh, used, made + RangeKeys(g, root, va, n))
    ensures Counted(g, mem, sh, used + Missing(g, mem0, root, va + n * Size(g)), made + RangeKeys(g, root, va, n + 1))
  {
    hide Grown, Tally, PageKeys, Missing, Size, RangeKeys;
    TallyGrows(g, mem0, mem, sh, root, va + n * Size(g), made + RangeKeys(g, root, va, n));
    KeysNext(g, root, va, n, made);
  }

  lemma CountedShort(g: Granule, mem: Mem, sh: Shape, used: nat, root: nat, va: nat, n: nat, made: Keys)
    requires Counted(g, mem, sh, used, made + RangeKeys(g, root, va, n)) && IsRoot(sh, root)
    ensures 2 + |made + RangeKeys(g, root, va, n + 1)| == used + Missing(g, mem, root, va + n * Size(g))
  {
    hide Tally, PageKeys, Missing, Size, RangeKeys;
    TallyCounts(g, mem, sh, root, va + n * Size(g), made + RangeKeys(g, root, va, n));
    KeysNext(g, root, va, n, made);
  }

  lemma CountedStart(g: Granule, mem: Mem, sh: Shape, used: nat, root: nat, va: nat, made: Keys)
    requires Counted(g, mem, sh, used, made)
    ensures Counted(g, mem, sh, used, made + RangeKeys(g, root, va, 0))
  {
    hide Tally;
    assert made + {} == made;
  }

  lemma SameRootsCounted(g: Granule, mem: Mem, sh: Shape, sh': Shape, used: nat, made: Keys)
    requires Counted(g, mem, sh, used, made) && forall r :: IsRoot(sh, r) <==> IsRoot(sh', r)
    ensures Counted(g, mem, sh', used, made)
  {
    hide TableAt, Trail, IsRoot;
  }

  lemma {:induction false} SmallerSet<T>(a: set<T>, b: set<T>)
    requires a <= b
    ensures |a| <= |b|
  {
    if a != {} {
      var x :| x in a;
      SmallerSet(a - {x}, b - {x});
    }
  }

  // ---------------------------------------------------------------- tables paid for from a window

  /** Of the frames below `next`, those above `spent` became the tables in `made`. */
  ghost predicate Funded(g: Granule, mem: Mem, sh: Shape, next: nat, spent: nat, made: Keys) {
    Tally(g, mem, sh, made) && next == spent + |made| * Size(g)
  }

  lemma FundedGrows(g: Granule, mem0: Mem, mem: Mem, sh: Shape, next: nat, spent: nat, root: nat, va: nat, n: nat,
                    made: Keys)
    requires Grown(g, mem0, mem, sh, root, va + n * Size(g), 3) && IsRoot(sh, root)
    requires Funded(g, mem0, sh, next, spent, made + RangeKeys(g, root, va, n))
    ensures Funded(g, mem, sh, next + Missing(g, mem0, root, va + n * Size(g)) * Size(g), spent,
                   made + RangeKeys(g, root, va, n + 1))
  {
    hide Grown, Tally, PageKeys, Missing, Size, RangeKeys;
    var more := made + RangeKeys(g, root, va, n);
    TallyGrows(g, mem0, mem, sh, root, va + n * Size(g), more);
    KeysNext(g, root, va, n, made);
    Distribute(g, |more|, Missing(g, mem0, root, va + n * Size(g)));
  }

  lemma FundedShort(g: Granule, mem: Mem, sh: Shape, next: nat, spent: nat, root: nat, va: nat, n: nat, made: Keys)
    requires Funded(g, mem, sh, next, spent, made + RangeKeys(g, root, va, n)) && IsRoot(sh, root)
    ensures spent + |made + RangeKeys(g, root, va, n + 1)| * Size(g)
         == next + Missing(g, mem, root, va + n * Size(g)) * Size(g)
  {
    hide Tally, PageKeys, Missing, Size, RangeKeys;
    var more := made + RangeKeys(g, root, va, n);
    TallyCounts(g, mem, sh, root, va + n * Size(g), more);
    KeysNext(g, root, va, n, made);
    Distribute(g, |more|, Missing(g, mem, root, va + n * Size(g)));
  }

  lemma Distribute(g: Granule, a: nat, b: nat)
    ensures (a + b) * Size(g) == a * Size(g) + b * Size(g)
  {
  }

  lemma MoreKeys(g: Granule, root: nat, va: nat, m: nat, n: nat, made: Keys)
    requires m <= n
    ensures |made + RangeKeys(g, root, va, m)| * Size(g) <= |made + RangeKeys(g, root, va, n)| * Size(g)
  {
    hide RangeKeys;
    RangeKeysGrow(g, root, va, m, n);
    SmallerSet(made + RangeKeys(g, root, va, m), made + RangeKeys(g, root, va, n));
  }

  lemma SameRootsFunded(g: Granule, mem: Mem, sh: Shape, sh': Shape, next: nat, spent: nat, made: Keys)
    requires Funded(g, mem, sh, next, spent, made) && forall r :: IsRoot(sh, r) <==> IsRoot(sh', r)
    ensures Funded(g, mem, sh', next, spent, made)
  {
    hide TableAt, Trail, IsRoot, Size;
  }
}
