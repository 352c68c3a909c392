/** The user half as a finite map from pages to frames, and when such a map owns its frames. */
module UserPages {
  import opened Abi
  import opened Descriptors
  import opened Tables
  import opened Paging

  /** Page number to frame and permission. */
  type Pages = map<nat, (nat, UserPerm)>

  function LeafOf(pages: Pages, page: nat): nat {
    if page in pages then Leaf(pages[page].0, UserAttrs(pages[page].1)) else 0
  }

  /** The hardware walk reads exactly the pages of the map. */
  ghost predicate Translates(g: Granule, mem: Mem, root: nat, pages: Pages) {
    forall va :: Walk(g, mem, root, va) == LeafOf(pages, Page(g, va))
  }

  /** No frame is reachable through two pages. */
  ghost predicate OneToOne(pages: Pages) {
    forall p, q :: p in pages && q in pages && pages[p].0 == pages[q].0 ==> p == q
  }

  /** Every target is a whole frame that is no table. */
  ghost predicate TargetsOk(g: Granule, mem: Mem, sh: Shape, pages: Pages) {
    forall p :: p in pages ==> IsFrame(g, pages[p].0) && pages[p].0 in mem && pages[p].0 !in sh.level
  }

  /** One address space: a forest with one root, whose pages and tables share no frame. */
  ghost predicate Owned(g: Granule, mem: Mem, sh: Shape, root: nat, pages: Pages) {
    && Forest(g, mem, sh)
    && (forall r :: IsRoot(sh, r) <==> r == root)
    && Translates(g, mem, root, pages)
    && OneToOne(pages)
    && TargetsOk(g, mem, sh, pages)
  }

  /** What the walk says about an address in an owned space, in the hardware's own terms. */
  lemma OwnedWalk(g: Granule, mem: Mem, sh: Shape, root: nat, pages: Pages, va: nat)
    requires Owned(g, mem, sh, root, pages)
    ensures var e := Walk(g, mem, root, va);
            && (e == 0 <==> Page(g, va) !in pages)
            && (e != 0 ==>
                  var (pa, perm) := pages[Page(g, va)];
                  && AddrOf(g, e) == pa && e % 4 == 3
                  && (UserWritable(e) <==> perm == RwUser) && (UserExecutable(e) <==> perm == TextUser))
  {
    hide Forest, Walk, Page, OneToOne, UserWritable, UserExecutable;
    assert Walk(g, mem, root, va) == LeafOf(pages, Page(g, va));
    if Page(g, va) in pages {
      var (pa, perm) := pages[Page(g, va)];
      UserPermsKeepWX(g, pa, perm);
      LeafIs(g, pa, UserAttrs(perm));
      LeafType(Leaf(pa, UserAttrs(perm)));
    }
  }

  lemma LeafType(e: nat)
    requires TypeBits(e) == 3
    ensures e % 4 == 3 && e != 0
  {
    TypeBitsAre(e);
  }

  /** No frame is writable through one address and executable through another. */
  lemma OwnedKeepsWX(g: Granule, mem: Mem, sh: Shape, root: nat, pages: Pages, va: nat, va': nat)
    requires Owned(g, mem, sh, root, pages)
    requires UserWritable(Walk(g, mem, root, va)) && UserExecutable(Walk(g, mem, root, va'))
    ensures AddrOf(g, Walk(g, mem, root, va)) != AddrOf(g, Walk(g, mem, root, va'))
  {
    OwnedWalk(g, mem, sh, root, pages, va);
    OwnedWalk(g, mem, sh, root, pages, va');
    hide Forest, Walk, Page, AddrOf, TargetsOk, Translates;
  }

  // ---------------------------------------------------------------- ranges of pages

  /** The frame that a linear range from (va, pa) puts behind a page. */
  function FrameFor(g: Granule, va: nat, pa: nat, p: nat): nat {
    if p < Page(g, va) then 0 else pa + (p - Page(g, va)) * Size(g)
  }

  function RangePages(g: Granule, va: nat, pa: nat, n: nat, perm: UserPerm): Pages {
    map p: nat | Page(g, va) <= p < Page(g, va) + n :: (FrameFor(g, va, pa, p), perm)
  }

  lemma TranslatesRange(g: Granule, mem0: Mem, mem: Mem, sh: Shape, root: nat, pages: Pages, va: nat, pa: nat, n: nat,
                        perm: UserPerm)
    requires Translates(g, mem0, root, pages) && IsRoot(sh, root)
    requires MapsRange(g, mem0, mem, sh, root, va, pa, n, UserAttrs(perm))
    ensures Translates(g, mem, root, pages + RangePages(g, va, pa, n, perm))
  {
    hide Walk, Page, Leaf, UserAttrs, Size;
    var more := RangePages(g, va, pa, n, perm);
    forall v
      ensures Walk(g, mem, root, v) == LeafOf(pages + more, Page(g, v))
    {
      assert Walk(g, mem0, root, v) == LeafOf(pages, Page(g, v));
    }
  }

  /** A range that the builder accepts takes no page that was mapped before. */
  lemma RangeIsNew(g: Granule, mem: Mem, root: nat, pages: Pages, va: nat, pa: nat, n: nat, perm: UserPerm)
    requires Translates(g, mem, root, pages) && va % TWO_48 + n * Size(g) <= TWO_48
    requires forall p :: p in pages ==> IsFrame(g, pages[p].0)
    requires forall k: nat :: k < n ==> Walk(g, mem, root, va + k * Size(g)) == 0
    ensures pages.Keys !! RangePages(g, va, pa, n, perm).Keys
  {
    hide Walk, Page, Leaf, UserAttrs;
    forall p | p in RangePages(g, va, pa, n, perm)
      ensures p !in pages
    {
      var k: nat := p - Page(g, va);
      PageInRange(g, va, n, k);
      assert Walk(g, mem, root, va + k * Size(g)) == 0;
      if p in pages {
        UserPermsKeepWX(g, pages[p].0, pages[p].1);
        LeafIs(g, pages[p].0, UserAttrs(pages[p].1));
        LeafType(Leaf(pages[p].0, UserAttrs(pages[p].1)));
      }
    }
  }

  lemma PageInRange(g: Granule, va: nat, n: nat, k: nat)
    requires k < n && va % TWO_48 + n * Size(g) <= TWO_48
    ensures Page(g, va + k * Size(g)) == Page(g, va) + k
  {
    hide Page;
    StepsBelow(g, k + 1, n);
    PageOf(g, va, k);
  }

  lemma StepsBelow(g: Granule, k: nat, n: nat)
    requires k <= n
    ensures k * Size(g) <= n * Size(g)
  {
  }

  /** A linear range never uses a frame twice, and stays within its length. */
  lemma FrameForInjective(g: Granule, va: nat, pa: nat, n: nat, p: nat, q: nat)
    requires Page(g, va) <= p < Page(g, va) + n && Page(g, va) <= q < Page(g, va) + n
    ensures FrameFor(g, va, pa, p) == FrameFor(g, va, pa, q) ==> p == q
    ensures pa <= FrameFor(g, va, pa, p) < pa + n * Size(g)
  {
    hide Page;
    StepsBelow(g, p - Page(g, va) + 1, n);
    SameStep(g, p - Page(g, va), q - Page(g, va));
  }

  lemma SameStep(g: Granule, i: nat, j: nat)
    ensures i * Size(g) == j * Size(g) ==> i == j
    ensures (i + 1) * Size(g) == i * Size(g) + Size(g)
  {
  }

  /** Adding a range of frames that nothing else maps keeps the map one to one. */
  lemma OneToOneRange(g: Granule, pages: Pages, va: nat, pa: nat, n: nat, perm: UserPerm)
    requires OneToOne(pages)
    requires forall p :: p in pages ==> !(pa <= pages[p].0 < pa + n * Size(g))
    ensures OneToOne(pages + RangePages(g, va, pa, n, perm))
  {
    hide Page, Size, FrameFor;
    var more := RangePages(g, va, pa, n, perm);
    var all := pages + more;
    forall p, q | p in all && q in all && all[p].0 == all[q].0
      ensures p == q
    {
      if p in more {
        FrameForInjective(g, va, pa, n, p, if q in more then q else p);
      }
      if q in more {
        FrameForInjective(g, va, pa, n, q, q);
      }
    }
  }
}
