/** Boards as the builder writes them: their tokens, the noise around them, and what they say. */
module FdtBoards {
  import opened Abi
  import opened FdtBytes
  import opened Fdt
  import opened FdtPrinter
  import opened FdtNoise

  const COMPATIBLE: Bytes := [0x63, 0x6f, 0x6d, 0x70, 0x61, 0x74, 0x69, 0x62, 0x6c, 0x65]  // "compatible"
  const DEVICE_TYPE: Bytes := [0x64, 0x65, 0x76, 0x69, 0x63, 0x65, 0x5f, 0x74, 0x79, 0x70, 0x65]  // "device_type"
  const BOOTARGS: Bytes := [0x62, 0x6f, 0x6f, 0x74, 0x61, 0x72, 0x67, 0x73]  // "bootargs"
  const RANGES: Bytes := [0x72, 0x61, 0x6e, 0x67, 0x65, 0x73]  // "ranges"
  const SIZE: Bytes := [0x73, 0x69, 0x7a, 0x65]  // "size"
  const NO_MAP: Bytes := [0x6e, 0x6f, 0x2d, 0x6d, 0x61, 0x70]  // "no-map"
  const REGION_AT: Bytes := [0x72, 0x65, 0x67, 0x69, 0x6f, 0x6e, 0x40]  // "region@"
  // "linux,dummy-virt\0"
  const DUMMY_VIRT: Bytes :=
    [0x6c, 0x69, 0x6e, 0x75, 0x78, 0x2c, 0x64, 0x75, 0x6d, 0x6d, 0x79, 0x2d, 0x76, 0x69, 0x72, 0x74, 0x00]
  // "console=ttyAMA0\0"
  const CONSOLE_ARGS: Bytes :=
    [0x63, 0x6f, 0x6e, 0x73, 0x6f, 0x6c, 0x65, 0x3d, 0x74, 0x74, 0x79, 0x41, 0x4d, 0x41, 0x30, 0x00]
  const MEMORY_TYPE: Bytes := [0x6d, 0x65, 0x6d, 0x6f, 0x72, 0x79, 0x00]  // "memory\0"

  type Entries = seq<(nat, nat)>

  datatype Board = Board(
    cells: Option<(nat, nat)>,
    memory: seq<Entries>,
    memreserve: Entries,
    rsvCells: Option<(nat, nat)>,
    rsvChildren: seq<Option<Entries>>,
    rngSeed: Option<Bytes>,
    kaslrSeed: Option<Bytes>)

  // ---------------------------------------------------------------- reg values

  /** `push_cells`: the low words of x, highest first. */
  function Cells(x: nat, n: nat): Bytes {
    if n == 0 then []
    else Be(4, if n > 2 then 0 else if n == 2 then x / 0x1_0000_0000 else x) + Cells(x, n - 1)
  }

  function Reg(entries: Entries, ac: nat, sc: nat): Bytes {
    if entries == [] then [] else Cells(entries[0].0, ac) + (Cells(entries[0].1, sc) + Reg(entries[1..], ac, sc))
  }

  /** The largest value that fits in a number of cells, plus one. */
  function CellLimit(n: nat): nat {
    if n == 1 then 0x1_0000_0000 else if n == 2 then TWO_64 else 0
  }

  /** Only the low bytes are printed. */
  lemma {:induction false} BeLow(n: nat, q: nat, r: nat)
    ensures Be(n, q * Pow256(n) + r) == Be(n, r)
  {
    if n > 0 {
      Times256(q, Pow256(n - 1));
      LowByte(q * Pow256(n - 1), r);
      BeLow(n - 1, q, r / 256);
    }
  }

  lemma Times256(q: nat, p: nat)
    ensures q * (256 * p) == 256 * (q * p)
  {
  }

  lemma LowByte(t: nat, r: nat)
    ensures (256 * t + r) / 256 == t + r / 256 && (256 * t + r) % 256 == r % 256
  {
  }

  lemma CellsRead(x: nat, n: nat)
    requires 1 <= n <= 2 && x < CellLimit(n)
    ensures |Cells(x, n)| == 4 * n && ReadBe(Cells(x, n)) == x
  {
    Words();
    if n == 1 {
      assert Cells(x, 1) == Be(4, x) + Cells(x, 0) == Be(4, x);
      BeReads(4, x);
    } else {
      var hi, lo := x / 0x1_0000_0000, x % 0x1_0000_0000;
      LowCell(x);
      assert Cells(x, 2) == Be(4, hi) + Be(4, lo);
      ReadJoin(Be(4, hi), Be(4, lo));
      BeReads(4, hi);
      BeReads(4, lo);
    }
  }

  lemma LowCell(x: nat)
    ensures Cells(x, 1) == Be(4, x % 0x1_0000_0000)
  {
    Words();
    BeLow(4, x / 0x1_0000_0000, x % 0x1_0000_0000);
    assert Cells(x, 1) == Be(4, x) + Cells(x, 0) == Be(4, x);
  }

  /** The regions a list of entries stands for: those of non-zero size. */
  function Sized(entries: Entries): seq<Region> {
    if entries == [] then []
    else if entries[0].1 == 0 then Sized(entries[1..])
    else [Region(entries[0].0, entries[0].1)] + Sized(entries[1..])
  }

  ghost predicate Fit(entries: Entries, ac: nat, sc: nat) {
    forall i :: 0 <= i < |entries| ==>
      entries[i].0 < CellLimit(ac) && entries[i].1 < CellLimit(sc) && entries[i].0 + entries[i].1 < TWO_64
  }

  lemma {:induction false} RegLength(entries: Entries, ac: nat, sc: nat)
    requires 1 <= ac <= 2 && 1 <= sc <= 2 && Fit(entries, ac, sc)
    ensures |Reg(entries, ac, sc)| == (4 * (ac + sc)) * |entries|
  {
    hide Cells, ReadBe, CellLimit;
    if entries != [] {
      CellsRead(entries[0].0, ac);
      CellsRead(entries[0].1, sc);
      assert Fit(entries[1..], ac, sc);
      RegLength(entries[1..], ac, sc);
      OneMoreTime(4 * (ac + sc), |entries|);
    }
  }

  lemma OneMoreTime(k: nat, n: nat)
    requires n > 0
    ensures k * n == k * (n - 1) + k
  {
  }

  /** A list of regions, if it is no longer than the parser can hold. */
  function AtMost(rs: seq<Region>, max: nat): Result<seq<Region>, BootError> {
    if |rs| <= max then Ok(rs) else Err(TooManyRegions)
  }

  lemma SizedStep(entries: Entries, acc: seq<Region>)
    ensures acc + Sized(entries) ==
            if entries == [] then acc
            else if entries[0].1 == 0 then acc + Sized(entries[1..])
            else acc + [Region(entries[0].0, entries[0].1)] + Sized(entries[1..])
  {
  }

  lemma FitStep(entries: Entries, ac: nat, sc: nat)
    requires Fit(entries, ac, sc) && entries != []
    ensures Fit(entries[1..], ac, sc) && entries[0].0 + entries[0].1 < TWO_64
  {
  }

  lemma RegNone(ac: nat, sc: nat)
    ensures Reg([], ac, sc) == []
  {
  }

  /** The first entry of a printed reg value, and the rest. */
  lemma RegHead(value: Bytes, at: nat, entries: Entries, ac: nat, sc: nat)
    requires 1 <= ac <= 2 && 1 <= sc <= 2 && Fit(entries, ac, sc) && entries != []
    requires at <= |value| && value[at..] == Reg(entries, ac, sc)
    ensures var mid, end := at + 4 * ac, at + 4 * (ac + sc);
            && end <= |value| && value[end..] == Reg(entries[1..], ac, sc)
            && ReadBe(value[at..mid]) == entries[0].0 && ReadBe(value[mid..end]) == entries[0].1
  {
    hide Cells, ReadBe, CellLimit;
    var e, rest := entries[0], Reg(entries[1..], ac, sc);
    CellsRead(e.0, ac);
    CellsRead(e.1, sc);
    Cut(value, at, Cells(e.0, ac), Cells(e.1, sc) + rest);
    Cut(value, at + 4 * ac, Cells(e.1, sc), rest);
  }

  lemma {:induction false} RegTail(value: Bytes, at: nat, entries: Entries, ac: nat, sc: nat, acc: seq<Region>,
                                   max: nat)
    requires 1 <= ac <= 2 && 1 <= sc <= 2 && Fit(entries, ac, sc)
    requires at <= |value| && value[at..] == Reg(entries, ac, sc) && |acc| <= max
    ensures RegFrom(value, at, ac, sc, acc, max) == AtMost(acc + Sized(entries), max)
    decreases |entries|
  {
    hide ReadBe, Reg, Sized, Fit;
    SizedStep(entries, acc);
    if entries == [] {
      RegNone(ac, sc);
    } else {
      var e := entries[0];
      RegHead(value, at, entries, ac, sc);
      FitStep(entries, ac, sc);
      var acc' := if e.1 == 0 then acc else acc + [Region(e.0, e.1)];
      if |acc'| <= max {
        RegTail(value, at + 4 * (ac + sc), entries[1..], ac, sc, acc', max);
      }
    }
  }

  /** Reading a printed reg value gives back its entries of non-zero size, unless they are too many. */
  lemma RegRead(entries: Entries, ac: nat, sc: nat, acc: seq<Region>, max: nat)
    requires 1 <= ac <= 2 && 1 <= sc <= 2 && Fit(entries, ac, sc) && entries != [] && |acc| <= max
    ensures ReadReg(Reg(entries, ac, sc), ac, sc, acc, max) == AtMost(acc + Sized(entries), max)
  {
    hide Reg, RegFrom, AtMost;
    var value := Reg(entries, ac, sc);
    RegLength(entries, ac, sc);
    Divides(ac + sc, |entries|);
    assert value[0..] == value;
    RegTail(value, 0, entries, ac, sc, acc, max);
  }

  lemma Divides(k: nat, n: nat)
    requires 2 <= k <= 4 && n > 0
    ensures ((4 * k) * n) % (4 * k) == 0 && (4 * k) * n > 0
  {
    if k == 2 {
      Eights(n);
    } else if k == 3 {
      Twelves(n);
    } else {
      Sixteens(n);
    }
  }

  lemma Eights(n: nat)
    ensures (8 * n) % 8 == 0
  {
  }

  lemma Twelves(n: nat)
    ensures (12 * n) % 12 == 0
  {
  }

  lemma Sixteens(n: nat)
    ensures (16 * n) % 16 == 0
  {
  }

  // ---------------------------------------------------------------- the tokens of a board

  /** The places where `Board::write` calls its noise callback, each at most once. */
  datatype Site =
    | InRoot | InChosen | ChosenEnd | InMemory(i: nat) | MemoryEnd(i: nat) | AfterMemory(i: nat)
    | InReserved | ChildEnd(i: nat) | RootEnd

  /** What the callback adds at each place. */
  type Noise = Site -> seq<Token>

  function Digit(d: nat): byte
    requires d < 16
  {
    if d < 10 then 0x30 + d else 0x57 + d
  }

  /** A number in lower-case digits. */
  function Digits(n: nat, radix: nat): (b: Bytes)
    requires 2 <= radix <= 16
    ensures NoNul(b)
  {
    if n < radix then [Digit(n)] else Digits(n / radix, radix) + [Digit(n % radix)]
  }

  function CellProps(cells: Option<(nat, nat)>): seq<Token> {
    match cells
    case None => []
    case Some((a, s)) => [Prop(ADDRESS_CELLS, Be(4, a)), Prop(SIZE_CELLS, Be(4, s))]
  }

  function SeedProp(name: Bytes, seed: Option<Bytes>): seq<Token> {
    match seed
    case None => []
    case Some(value) => [Prop(name, value)]
  }

  function ChosenTokens(d: Board, noise: Noise): seq<Token> {
    if !HasChosen(d) then []
    else
      [Begin(CHOSEN)] + (noise(InChosen) + (SeedProp(RNG_SEED, d.rngSeed) + ([Prop(BOOTARGS, CONSOLE_ARGS)]
      + (SeedProp(KASLR_SEED, d.kaslrSeed) + (noise(ChosenEnd) + [EndNode])))))
  }

  function MemoryName(i: nat, entries: Entries): Bytes {
    if entries != [] && i % 2 == 0 then MEMORY_AT + Digits(entries[0].0, 16) else MEMORY
  }

  function MemoryTokens(i: nat, entries: Entries, ac: nat, sc: nat, noise: Noise): seq<Token> {
    [Begin(MemoryName(i, entries))] + ([Prop(DEVICE_TYPE, MEMORY_TYPE)] + (noise(InMemory(i))
    + ([Prop(REG, Reg(entries, ac, sc))] + (noise(MemoryEnd(i)) + ([EndNode] + noise(AfterMemory(i)))))))
  }

  function MemoriesTokens(memory: seq<Entries>, ac: nat, sc: nat, noise: Noise): seq<Token> {
    if memory == [] then []
    else
      MemoriesTokens(memory[..|memory| - 1], ac, sc, noise)
      + MemoryTokens(|memory| - 1, memory[|memory| - 1], ac, sc, noise)
  }

  function ChildName(i: nat): Bytes {
    REGION_AT + Digits(i, 10)
  }

  function ChildProp(child: Option<Entries>, ac: nat, sc: nat): Token {
    match child
    case Some(entries) => Prop(REG, Reg(entries, ac, sc))
    case None => Prop(SIZE, Reg([(0, 0x10_0000)], 0, sc))
  }

  function ChildTokens(i: nat, child: Option<Entries>, ac: nat, sc: nat, noise: Noise): seq<Token> {
    [Begin(ChildName(i))] + ([ChildProp(child, ac, sc)] + ([Prop(NO_MAP, [])] + (noise(ChildEnd(i)) + [EndNode])))
  }

  function ChildrenTokens(children: seq<Option<Entries>>, ac: nat, sc: nat, noise: Noise): seq<Token> {
    if children == [] then []
    else
      ChildrenTokens(children[..|children| - 1], ac, sc, noise)
      + ChildTokens(|children| - 1, children[|children| - 1], ac, sc, noise)
  }

  function CellsOr(cells: Option<(nat, nat)>, other: (nat, nat)): (nat, nat) {
    if cells.Some? then cells.value else other
  }

  function RootCells(d: Board): (nat, nat) {
    CellsOr(d.cells, (2, 1))
  }

  function RsvCellsOf(d: Board): (nat, nat) {
    CellsOr(d.rsvCells, RootCells(d))
  }

  function ReservedTokens(d: Board, noise: Noise): seq<Token> {
    if !HasReserved(d) then []
    else
      var c := RsvCellsOf(d);
      [Begin(RESERVED_MEMORY)] + (CellProps(d.rsvCells) + ([Prop(RANGES, [])]
      + (noise(InReserved) + (ChildrenTokens(d.rsvChildren, c.0, c.1, noise) + [EndNode]))))
  }

  /** `Board::write`: the tokens of the board, with the caller's noise at every place it is asked for. */
  function BoardTokens(d: Board, noise: Noise): seq<Token> {
    var c := RootCells(d);
    [Begin([])] + (CellProps(d.cells) + ([Prop(COMPATIBLE, DUMMY_VIRT)] + (noise(InRoot) + (ChosenTokens(d, noise)
    + (MemoriesTokens(d.memory, c.0, c.1, noise) + (ReservedTokens(d, noise) + (noise(RootEnd) + [EndNode])))))))
  }

  function Silence(): Noise {
    site => []
  }

  /** Where in the tree a piece of noise is put. */
  function SitePath(d: Board, site: Site): seq<Bytes> {
    match site
    case InRoot => [[]]
    case InChosen => [[], CHOSEN]
    case ChosenEnd => [[], CHOSEN]
    case InMemory(i) => [[], MemoryName(i, if i < |d.memory| then d.memory[i] else [])]
    case MemoryEnd(i) => [[], MemoryName(i, if i < |d.memory| then d.memory[i] else [])]
    case AfterMemory(_) => [[]]
    case InReserved => [[], RESERVED_MEMORY]
    case ChildEnd(i) => [[], RESERVED_MEMORY, ChildName(i)]
    case RootEnd => [[]]
  }

  predicate HasChosen(d: Board) {
    d.rngSeed.Some? || d.kaslrSeed.Some?
  }

  predicate HasReserved(d: Board) {
    d.rsvChildren != [] || d.rsvCells.Some?
  }

  predicate Visited(d: Board, site: Site) {
    match site
    case InChosen => HasChosen(d)
    case ChosenEnd => HasChosen(d)
    case InMemory(i) => i < |d.memory|
    case MemoryEnd(i) => i < |d.memory|
    case AfterMemory(i) => i < |d.memory|
    case InReserved => HasReserved(d)
    case ChildEnd(i) => i < |d.rsvChildren|
    case _ => true
  }

  /** Only noise where noise is asked for: NOPs, properties not read there, subtrees not read. */
  ghost predicate QuietNoise(d: Board, noise: Noise) {
    forall site :: Visited(d, site) ==> Quiet(SitePath(d, site), noise(site))
  }

  // ---------------------------------------------------------------- what a board says

  function Flatten(memory: seq<Entries>): Entries {
    if memory == [] then [] else Flatten(memory[..|memory| - 1]) + memory[|memory| - 1]
  }

  function ChildEntries(children: seq<Option<Entries>>): Entries {
    if children == [] then []
    else
      ChildEntries(children[..|children| - 1]) +
      (match children[|children| - 1] case Some(es) => es case None => [])
  }

  function BeforeEnd(rsv: Entries): Entries {
    if rsv == [] || rsv[0] == (0, 0) then [] else [rsv[0]] + BeforeEnd(rsv[1..])
  }

  function ExpectedMemory(d: Board): seq<Region> {
    Sized(Flatten(d.memory))
  }

  function ExpectedReserved(d: Board): seq<Region> {
    Sized(BeforeEnd(d.memreserve) + ChildEntries(d.rsvChildren))
  }

  function SeedBytes(seed: Option<Bytes>): Bytes {
    if seed.Some? then seed.value else []
  }

  function ExpectedEntropy(d: Board): Bytes {
    var all := SeedBytes(d.rngSeed) + SeedBytes(d.kaslrSeed);
    if |all| <= MAX_ENTROPY then all else all[..MAX_ENTROPY]
  }

  function Expected(d: Board): Info {
    Info(ExpectedMemory(d), ExpectedReserved(d), ExpectedEntropy(d))
  }

  predicate CellsOk(c: (nat, nat)) {
    1 <= c.0 <= 2 && 1 <= c.1 <= 2
  }

  /** Cells are 1 or 2, values fit them, and reg lists are not empty; how many regions there are is left open. */
  ghost predicate WellFormed(d: Board) {
    && CellsOk(RootCells(d)) && CellsOk(RsvCellsOf(d))
    && (forall i :: 0 <= i < |d.memory| ==> d.memory[i] != [] && Fit(d.memory[i], RootCells(d).0, RootCells(d).1))
    && (forall i :: 0 <= i < |d.rsvChildren| && d.rsvChildren[i].Some? ==>
          d.rsvChildren[i].value != [] && Fit(d.rsvChildren[i].value, RsvCellsOf(d).0, RsvCellsOf(d).1))
    && (forall i :: 0 <= i < |d.memreserve| ==> d.memreserve[i].0 < TWO_64 && d.memreserve[i].1 < TWO_64)
    && Fit(BeforeEnd(d.memreserve), 2, 2)
  }

  /** `board_is_valid`: between one and eight memory regions, and at most eight reserved ones. */
  predicate CountsOk(d: Board) {
    1 <= |ExpectedMemory(d)| <= MAX_MEM_REGIONS && |ExpectedReserved(d)| <= MAX_RSV_REGIONS
  }

  /** What a parser owes the board: its lists if the counts are in range, and otherwise the error that says why. */
  function Verdict(d: Board): (r: Result<Info, BootError>)
    ensures r.Ok? <==> CountsOk(d)
  {
    if |ExpectedMemory(d)| > MAX_MEM_REGIONS || |ExpectedReserved(d)| > MAX_RSV_REGIONS then Err(TooManyRegions)
    else if ExpectedMemory(d) == [] then Err(NoMemory)
    else Ok(Expected(d))
  }
}
