/**
  What the device tree parser reads, as functions: the header, the reservation block, tokens of the
  structure block, and the state the parser keeps while it walks them (chapter 5 of the Devicetree
  Specification v0.4).
*/
module Fdt {
  import opened Abi
  import opened FdtBytes

  const MAX_MEM_REGIONS := 8
  const MAX_RSV_REGIONS := 8
  const MAX_ENTROPY := 72
  const MAX_DEPTH := 32
  const SUPPORTED_VERSION := 17

  const BEGIN_NODE := 1
  const END_NODE := 2
  const PROP := 3
  const NOP := 4
  const END := 9

  const MEMORY: Bytes := [0x6d, 0x65, 0x6d, 0x6f, 0x72, 0x79]  // "memory"
  const MEMORY_AT: Bytes := [0x6d, 0x65, 0x6d, 0x6f, 0x72, 0x79, 0x40]  // "memory@"
  const CHOSEN: Bytes := [0x63, 0x68, 0x6f, 0x73, 0x65, 0x6e]  // "chosen"
  // "reserved-memory"
  const RESERVED_MEMORY: Bytes :=
    [0x72, 0x65, 0x73, 0x65, 0x72, 0x76, 0x65, 0x64, 0x2d, 0x6d, 0x65, 0x6d, 0x6f, 0x72, 0x79]
  // "#address-cells"
  const ADDRESS_CELLS: Bytes := [0x23, 0x61, 0x64, 0x64, 0x72, 0x65, 0x73, 0x73, 0x2d, 0x63, 0x65, 0x6c, 0x6c, 0x73]
  const SIZE_CELLS: Bytes := [0x23, 0x73, 0x69, 0x7a, 0x65, 0x2d, 0x63, 0x65, 0x6c, 0x6c, 0x73]  // "#size-cells"
  const REG: Bytes := [0x72, 0x65, 0x67]  // "reg"
  const RNG_SEED: Bytes := [0x72, 0x6e, 0x67, 0x2d, 0x73, 0x65, 0x65, 0x64]  // "rng-seed"
  const KASLR_SEED: Bytes := [0x6b, 0x61, 0x73, 0x6c, 0x72, 0x2d, 0x73, 0x65, 0x65, 0x64]  // "kaslr-seed"

  /** The bytes of an ASCII text. */
  ghost predicate Spells(b: Bytes, text: string) {
    |b| == |text| && forall i :: 0 <= i < |b| ==> b[i] == text[i] as int
  }

  lemma NamesSpelled()
    ensures Spells(MEMORY, "memory") && Spells(MEMORY_AT, "memory@") && Spells(CHOSEN, "chosen")
    ensures Spells(RESERVED_MEMORY, "reserved-memory")
    ensures Spells(ADDRESS_CELLS, "#address-cells") && Spells(SIZE_CELLS, "#size-cells")
    ensures Spells(REG, "reg") && Spells(RNG_SEED, "rng-seed") && Spells(KASLR_SEED, "kaslr-seed")
  {
  }

  datatype BootError =
    | BadHeader | UnsupportedVersion | Truncated | BadStructure | TooDeep | BadString
    | UnsupportedCells | BadReg | TooManyRegions | NoMemory

  datatype Region = Region(base: nat, size: nat)

  /** What the boot information holds in the end. */
  datatype Info = Info(memory: seq<Region>, reserved: seq<Region>, entropy: Bytes)

  // ---------------------------------------------------------------- the header

  datatype Header = Header(offStruct: nat, structEnd: nat, offStrings: nat, stringsEnd: nat, offRsv: nat)

  /** Blocks lie inside the blob, and the structure block is made of whole words. */
  predicate HeaderFits(len: nat, h: Header) {
    && h.offStruct <= h.structEnd <= len && h.offStruct % 4 == 0 && h.structEnd % 4 == 0
    && h.offStrings <= h.stringsEnd <= len && h.offRsv % 8 == 0
  }

  predicate HeaderOk(blob: Bytes, h: Header) {
    HeaderFits(|blob|, h)
  }

  /** The checks on the header words. */
  function CheckHeader(len: nat, offStruct: nat, offStrings: nat, offRsv: nat, version: nat, lastComp: nat,
                       sizeStrings: nat, sizeStruct: nat): (r: Result<Header, BootError>)
    ensures r.Ok? ==> HeaderFits(len, r.value)
  {
    if version < SUPPORTED_VERSION || lastComp > SUPPORTED_VERSION then Err(UnsupportedVersion)
    else if offStruct % 4 != 0 || sizeStruct % 4 != 0 then Err(BadHeader)
    else if offStruct + sizeStruct > len || offStrings + sizeStrings > len then Err(BadHeader)
    else if offRsv % 8 != 0 then Err(BadHeader)
    else Ok(Header(offStruct, offStruct + sizeStruct, offStrings, offStrings + sizeStrings, offRsv))
  }

  function ReadHeader(blob: Bytes): (r: Result<Header, BootError>)
    ensures r.Ok? ==> HeaderOk(blob, r.value)
  {
    if |blob| < 40 then Err(Truncated)
    else
      CheckHeader(|blob|, ReadBe(blob[8..12]), ReadBe(blob[12..16]), ReadBe(blob[16..20]), ReadBe(blob[20..24]),
                  ReadBe(blob[24..28]), ReadBe(blob[32..36]), ReadBe(blob[36..40]))
  }

  // ---------------------------------------------------------------- regions

  /** Append a region, unless it overflows or the list is full. */
  function PushRegion(acc: seq<Region>, base: nat, size: nat, max: nat): Result<seq<Region>, BootError> {
    if base + size >= TWO_64 then Err(BadReg)
    else if |acc| == max then Err(TooManyRegions)
    else Ok(acc + [Region(base, size)])
  }

  /** The reservation block from `off`: pairs up to the first (0, 0), without the empty ones. */
  function ReadRsv(blob: Bytes, off: nat, acc: seq<Region>): Result<seq<Region>, BootError>
    decreases |blob| - off
  {
    if off + 16 > |blob| then Err(Truncated)
    else
      var base, size := ReadBe(blob[off..off + 8]), ReadBe(blob[off + 8..off + 16]);
      if base == 0 && size == 0 then Ok(acc)
      else if size == 0 then ReadRsv(blob, off + 16, acc)
      else
        match PushRegion(acc, base, size, MAX_RSV_REGIONS)
        case Err(e) => Err(e)
        case Ok(acc') => ReadRsv(blob, off + 16, acc')
  }

  /** The entries of a reg value from byte `at` on. */
  function RegFrom(value: Bytes, at: nat, ac: nat, sc: nat, acc: seq<Region>, max: nat): Result<seq<Region>, BootError>
    requires 1 <= ac <= 2 && 1 <= sc <= 2
    decreases |value| - at
  {
    var mid, end := at + 4 * ac, at + 4 * (ac + sc);
    if end > |value| then Ok(acc)
    else
      var base, size := ReadBe(value[at..mid]), ReadBe(value[mid..end]);
      if size == 0 then RegFrom(value, end, ac, sc, acc, max)
      else
        match PushRegion(acc, base, size, max)
        case Err(e) => Err(e)
        case Ok(acc') => RegFrom(value, end, ac, sc, acc', max)
  }

  /** `parse_reg`. */
  function ReadReg(value: Bytes, ac: nat, sc: nat, acc: seq<Region>, max: nat): Result<seq<Region>, BootError> {
    if !(1 <= ac <= 2) || !(1 <= sc <= 2) then Err(UnsupportedCells)
    else if value == [] || |value| % (4 * (ac + sc)) != 0 then Err(BadReg)
    else RegFrom(value, 0, ac, sc, acc, max)
  }

  function CellCount(value: Bytes): Result<nat, BootError> {
    if |value| != 4 then Err(UnsupportedCells) else Ok(ReadBe(value))
  }

  /** `push_entropy`: bytes past the limit are dropped. */
  function AddEntropy(entropy: Bytes, value: Bytes): Bytes {
    if |entropy| + |value| <= MAX_ENTROPY then entropy + value
    else if |entropy| <= MAX_ENTROPY then entropy + value[..MAX_ENTROPY - |entropy|]
    else entropy
  }

  // ---------------------------------------------------------------- tokens

  datatype Token = Begin(name: Bytes) | EndNode | Prop(name: Bytes, value: Bytes) | Nop | Fin

  /** `prop_name`. */
  function NameAt(blob: Bytes, h: Header, nameOff: nat): Result<Bytes, BootError>
    requires HeaderOk(blob, h)
  {
    var start := h.offStrings + nameOff;
    if start >= h.stringsEnd then Err(BadString)
    else
      match FindNul(blob, start, h.stringsEnd)
      case None => Err(BadString)
      case Some(e) => Ok(blob[start..e])
  }

  function ScanBegin(blob: Bytes, h: Header, off: nat): (r: Result<(Token, nat), BootError>)
    requires HeaderOk(blob, h) && off <= h.structEnd
    ensures r.Ok? ==> off < r.value.1 <= h.structEnd && r.value.1 % 4 == 0 && r.value.0.Begin?
  {
    match FindNul(blob, off, h.structEnd)
    case None => Err(BadStructure)
    case Some(e) => Ok((Begin(blob[off..e]), Up4(e + 1)))
  }

  function ScanProp(blob: Bytes, h: Header, off: nat): (r: Result<(Token, nat), BootError>)
    requires HeaderOk(blob, h)
    ensures r.Ok? ==> off < r.value.1 <= h.structEnd && r.value.1 % 4 == 0 && r.value.0.Prop?
  {
    if off + 8 > |blob| then Err(Truncated)
    else
      var len, nameOff := ReadBe(blob[off..off + 4]), ReadBe(blob[off + 4..off + 8]);
      if off + 8 + len > h.structEnd then Err(Truncated)
      else
        match NameAt(blob, h, nameOff)
        case Err(e) => Err(e)
        case Ok(name) => Ok((Prop(name, blob[off + 8..off + 8 + len]), Up4(off + 8 + len)))
  }

  /** The token at `off`, for a parser `depth` nodes deep, and the offset behind it. */
  function Scan(blob: Bytes, h: Header, off: nat, depth: nat): (r: Result<(Token, nat), BootError>)
    requires HeaderOk(blob, h) && off % 4 == 0
    ensures r.Ok? ==> off < r.value.1 <= h.structEnd && r.value.1 % 4 == 0
  {
    if off >= h.structEnd then Err(BadStructure)
    else
      var word := ReadBe(blob[off..off + 4]);
      if word == BEGIN_NODE then
        if depth + 1 > MAX_DEPTH then Err(TooDeep) else ScanBegin(blob, h, off + 4)
      else if word == END_NODE then
        if depth == 0 then Err(BadStructure) else Ok((EndNode, off + 4))
      else if word == PROP then
        if depth == 0 then Err(BadStructure) else ScanProp(blob, h, off + 4)
      else if word == NOP then Ok((Nop, off + 4))
      else if word == END then
        if depth != 0 then Err(BadStructure) else Ok((Fin, off + 4))
      else Err(BadStructure)
  }

  // ---------------------------------------------------------------- the parser's own state

  /** The flags the parser keeps instead of a path. */
  datatype Reading = Reading(depth: nat, memoryDepth: Option<nat>, chosenDepth: Option<nat>, rsvNode: bool,
                             ac: nat, sc: nat, rac: nat, rsc: nat, info: Info)

  predicate IsMemory(name: Bytes) {
    name == MEMORY || MEMORY_AT <= name
  }

  predicate IsSeed(name: Bytes) {
    name == RNG_SEED || name == KASLR_SEED
  }

  function OpenNode(st: Reading, name: Bytes): Result<Reading, BootError> {
    var depth := st.depth + 1;
    if depth == 1 && name != [] then Err(BadStructure)
    else
      var st1 := st.(depth := depth);
      var st2 := if depth == 2 && IsMemory(name) then st1.(memoryDepth := Some(depth)) else st1;
      var st3 := if depth == 2 && name == CHOSEN then st2.(chosenDepth := Some(depth)) else st2;
      Ok(if depth == 2 && name == RESERVED_MEMORY then st3.(rsvNode := true, rac := st.ac, rsc := st.sc) else st3)
  }

  function CloseNode(st: Reading): Reading
    requires st.depth > 0
  {
    st.(memoryDepth := if st.memoryDepth == Some(st.depth) then None else st.memoryDepth,
        chosenDepth := if st.chosenDepth == Some(st.depth) then None else st.chosenDepth,
        rsvNode := st.rsvNode && st.depth != 2,
        depth := st.depth - 1)
  }

  function ReadProp(st: Reading, name: Bytes, value: Bytes): Result<Reading, BootError> {
    if st.depth == 1 then
      if name == ADDRESS_CELLS then
        (match CellCount(value) case Err(e) => Err(e) case Ok(n) => Ok(st.(ac := n)))
      else if name == SIZE_CELLS then
        (match CellCount(value) case Err(e) => Err(e) case Ok(n) => Ok(st.(sc := n)))
      else Ok(st)
    else if st.memoryDepth == Some(st.depth) && name == REG then
      (match ReadReg(value, st.ac, st.sc, st.info.memory, MAX_MEM_REGIONS)
       case Err(e) => Err(e)
       case Ok(rs) => Ok(st.(info := st.info.(memory := rs))))
    else if st.rsvNode && st.depth == 2 then
      if name == ADDRESS_CELLS then
        (match CellCount(value) case Err(e) => Err(e) case Ok(n) => Ok(st.(rac := n)))
      else if name == SIZE_CELLS then
        (match CellCount(value) case Err(e) => Err(e) case Ok(n) => Ok(st.(rsc := n)))
      else Ok(st)
    else if st.rsvNode && st.depth == 3 && name == REG then
      (match ReadReg(value, st.rac, st.rsc, st.info.reserved, MAX_RSV_REGIONS)
       case Err(e) => Err(e)
       case Ok(rs) => Ok(st.(info := st.info.(reserved := rs))))
    else if st.chosenDepth == Some(st.depth) && IsSeed(name) then
      Ok(st.(info := st.info.(entropy := AddEntropy(st.info.entropy, value))))
    else Ok(st)
  }

  function Apply(st: Reading, t: Token): Result<Reading, BootError> {
    match t
    case Begin(name) => OpenNode(st, name)
    case EndNode => if st.depth == 0 then Err(BadStructure) else Ok(CloseNode(st))
    case Prop(name, value) => ReadProp(st, name, value)
    case Nop => Ok(st)
    case Fin => Ok(st)
  }

  function Begins(reserved: seq<Region>): Reading {
    Reading(0, None, None, false, 2, 1, 2, 1, Info([], reserved, []))
  }

  /** The structure block from `off`. */
  function ReadStruct(blob: Bytes, h: Header, off: nat, st: Reading): Result<Info, BootError>
    requires HeaderOk(blob, h) && off % 4 == 0
    decreases |blob| - off
  {
    match Scan(blob, h, off, st.depth)
    case Err(e) => Err(e)
    case Ok((t, off')) =>
      if t == Fin then Ok(st.info)
      else
        match Apply(st, t)
        case Err(e) => Err(e)
        case Ok(st') => ReadStruct(blob, h, off', st')
  }

  /** `parse_blob`. */
  function Parse(blob: Bytes): Result<Info, BootError> {
    match ReadHeader(blob)
    case Err(e) => Err(e)
    case Ok(h) =>
      match ReadRsv(blob, h.offRsv, [])
      case Err(e) => Err(e)
      case Ok(rsv) =>
        match ReadStruct(blob, h, h.offStruct, Begins(rsv))
        case Err(e) => Err(e)
        case Ok(info) => if info.memory == [] then Err(NoMemory) else Ok(info)
  }
}
