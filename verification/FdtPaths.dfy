/** The path-based reading of a device tree, and that the parser's depth flags amount to it. */
module FdtPaths {
  import opened Abi
  import opened FdtBytes
  import opened Fdt

  // ---------------------------------------------------------------- reading by path

  /** Where the reader is: the names from the root down, and what it has read so far. */
  datatype Walker = Walker(path: seq<Bytes>, ac: nat, sc: nat, rac: nat, rsc: nat, info: Info)

  /** What a node is for, by its path alone. */
  datatype Role = RootNode | MemoryNode | ReservedNode | ReservedChild | ChosenNode | OtherNode

  function RoleOf(path: seq<Bytes>): Role {
    if |path| == 1 then RootNode
    else if |path| == 2 && IsMemory(path[1]) then MemoryNode
    else if |path| == 2 && path[1] == RESERVED_MEMORY then ReservedNode
    else if |path| == 2 && path[1] == CHOSEN then ChosenNode
    else if |path| == 3 && path[1] == RESERVED_MEMORY then ReservedChild
    else OtherNode
  }

  /** The effect of a property, by the role of its node. */
  function PropAs(role: Role, w: Walker, name: Bytes, value: Bytes): Result<Walker, BootError> {
    match role
    case RootNode =>
      if name == ADDRESS_CELLS then
        (match CellCount(value) case Err(e) => Err(e) case Ok(n) => Ok(w.(ac := n)))
      else if name == SIZE_CELLS then
        (match CellCount(value) case Err(e) => Err(e) case Ok(n) => Ok(w.(sc := n)))
      else Ok(w)
    case MemoryNode =>
      if name != REG then Ok(w)
      else
        (match ReadReg(value, w.ac, w.sc, w.info.memory, MAX_MEM_REGIONS)
         case Err(e) => Err(e)
         case Ok(rs) => Ok(w.(info := w.info.(memory := rs))))
    case ReservedNode =>
      if name == ADDRESS_CELLS then
        (match CellCount(value) case Err(e) => Err(e) case Ok(n) => Ok(w.(rac := n)))
      else if name == SIZE_CELLS then
        (match CellCount(value) case Err(e) => Err(e) case Ok(n) => Ok(w.(rsc := n)))
      else Ok(w)
    case ReservedChild =>
      if name != REG then Ok(w)
      else
        (match ReadReg(value, w.rac, w.rsc, w.info.reserved, MAX_RSV_REGIONS)
         case Err(e) => Err(e)
         case Ok(rs) => Ok(w.(info := w.info.(reserved := rs))))
    case ChosenNode =>
      if IsSeed(name) then Ok(w.(info := w.info.(entropy := AddEntropy(w.info.entropy, value)))) else Ok(w)
    case OtherNode => Ok(w)
  }

  function PropAt(w: Walker, name: Bytes, value: Bytes): Result<Walker, BootError> {
    PropAs(RoleOf(w.path), w, name, value)
  }

  function Walk(w: Walker, t: Token): Result<Walker, BootError> {
    match t
    case Begin(name) =>
      if w.path == [] && name != [] then Err(BadStructure)
      else
        var path := w.path + [name];
        Ok(if RoleOf(path) == ReservedNode then w.(path := path, rac := w.ac, rsc := w.sc) else w.(path := path))
    case EndNode => if w.path == [] then Err(BadStructure) else Ok(w.(path := w.path[..|w.path| - 1]))
    case Prop(name, value) => PropAt(w, name, value)
    case Nop => Ok(w)
    case Fin => Ok(w)
  }

  function Starts(reserved: seq<Region>): Walker {
    Walker([], 2, 1, 2, 1, Info([], reserved, []))
  }

  function WalkStruct(blob: Bytes, h: Header, off: nat, w: Walker): Result<Info, BootError>
    requires HeaderOk(blob, h) && off % 4 == 0
    decreases |blob| - off
  {
    match Scan(blob, h, off, |w.path|)
    case Err(e) => Err(e)
    case Ok((t, off')) =>
      if t == Fin then Ok(w.info)
      else
        match Walk(w, t)
        case Err(e) => Err(e)
        case Ok(w') => WalkStruct(blob, h, off', w')
  }

  function ParsePaths(blob: Bytes): Result<Info, BootError> {
    match ReadHeader(blob)
    case Err(e) => Err(e)
    case Ok(h) =>
      match ReadRsv(blob, h.offRsv, [])
      case Err(e) => Err(e)
      case Ok(rsv) =>
        match WalkStruct(blob, h, h.offStruct, Starts(rsv))
        case Err(e) => Err(e)
        case Ok(info) => if info.memory == [] then Err(NoMemory) else Ok(info)
  }

  // ---------------------------------------------------------------- the flags follow the path

  /** Each flag says which kind of second-level node the reader is in. */
  predicate Agree(st: Reading, w: Walker) {
    && st.depth == |w.path| && st.ac == w.ac && st.sc == w.sc && st.rac == w.rac && st.rsc == w.rsc && st.info == w.info
    && st.memoryDepth == (if |w.path| >= 2 && IsMemory(w.path[1]) then Some(2) else None)
    && st.chosenDepth == (if |w.path| >= 2 && w.path[1] == CHOSEN then Some(2) else None)
    && (st.rsvNode <==> |w.path| >= 2 && w.path[1] == RESERVED_MEMORY)
  }

  ghost predicate AgreeOn(a: Result<Reading, BootError>, b: Result<Walker, BootError>) {
    match a
    case Err(e) => b == Err(e)
    case Ok(st) => b.Ok? && Agree(st, b.value)
  }

  lemma NamesDiffer(name: Bytes)
    ensures !(IsMemory(name) && name == CHOSEN) && !(IsMemory(name) && name == RESERVED_MEMORY)
    ensures CHOSEN != RESERVED_MEMORY
  {
    assert MEMORY[0] != CHOSEN[0] && MEMORY[0] != RESERVED_MEMORY[0] && CHOSEN[0] != RESERVED_MEMORY[0];
    assert MEMORY_AT <= name ==> name[0] == MEMORY_AT[0];
  }

  /** One token: the flags and the path give the same answer and stay in step. */
  lemma TokenAgrees(st: Reading, w: Walker, t: Token)
    requires Agree(st, w)
    ensures AgreeOn(Apply(st, t), Walk(w, t))
  {
    if |w.path| >= 2 {
      NamesDiffer(w.path[1]);
    }
    match t
    case Begin(name) => BeginAgrees(st, w, name);
    case Prop(name, value) => PropAgrees(st, w, name, value);
    case _ =>
  }

  lemma BeginAgrees(st: Reading, w: Walker, name: Bytes)
    requires Agree(st, w)
    ensures AgreeOn(OpenNode(st, name), Walk(w, Begin(name)))
  {
    hide IsMemory;
    NamesDiffer(name);
    var path := w.path + [name];
    assert |w.path| >= 2 ==> path[1] == w.path[1];
    assert |w.path| == 1 ==> path[1] == name;
  }

  lemma PropAgrees(st: Reading, w: Walker, name: Bytes, value: Bytes)
    requires Agree(st, w)
    ensures AgreeOn(ReadProp(st, name, value), PropAt(w, name, value))
  {
    hide IsMemory, ReadReg, CellCount, AddEntropy, IsSeed;
    if |w.path| >= 2 {
      NamesDiffer(w.path[1]);
    }
  }

  lemma {:induction false} StructAgrees(blob: Bytes, h: Header, off: nat, st: Reading, w: Walker)
    requires HeaderOk(blob, h) && off % 4 == 0 && Agree(st, w)
    ensures ReadStruct(blob, h, off, st) == WalkStruct(blob, h, off, w)
    decreases |blob| - off
  {
    hide Scan, Apply, Walk, HeaderOk;
    match Scan(blob, h, off, st.depth)
    case Err(e) =>
    case Ok((t, off')) =>
      TokenAgrees(st, w, t);
      if t != Fin && Apply(st, t).Ok? {
        ScanMoves(blob, h, off, st.depth);
        StructAgrees(blob, h, off', Apply(st, t).value, Walk(w, t).value);
      }
  }

  lemma ScanMoves(blob: Bytes, h: Header, off: nat, depth: nat)
    requires HeaderOk(blob, h) && off % 4 == 0 && Scan(blob, h, off, depth).Ok?
    ensures var off' := Scan(blob, h, off, depth).value.1; off < off' <= |blob| && off' % 4 == 0
  {
  }

  /** For every byte sequence the parser's verdict is that of the path-based reading. */
  lemma ParsedByPath(blob: Bytes)
    ensures Parse(blob) == ParsePaths(blob)
  {
    hide ReadRsv, ReadStruct, WalkStruct;
    var h := ReadHeader(blob);
    if h.Ok? {
      var rsv := ReadRsv(blob, h.value.offRsv, []);
      if rsv.Ok? {
        StructAgrees(blob, h.value, h.value.offStruct, Begins(rsv.value), Starts(rsv.value));
      }
    }
  }

  // ---------------------------------------------------------------- limits

  predicate RegionsOk(rs: seq<Region>, max: nat) {
    |rs| <= max && forall i :: 0 <= i < |rs| ==> rs[i].size > 0 && rs[i].base + rs[i].size < TWO_64
  }

  predicate InfoOk(info: Info) {
    && RegionsOk(info.memory, MAX_MEM_REGIONS) && RegionsOk(info.reserved, MAX_RSV_REGIONS)
    && |info.entropy| <= MAX_ENTROPY
  }

  lemma {:induction false} RegLimits(value: Bytes, at: nat, ac: nat, sc: nat, acc: seq<Region>, max: nat)
    requires 1 <= ac <= 2 && 1 <= sc <= 2 && RegionsOk(acc, max)
    ensures var r := RegFrom(value, at, ac, sc, acc, max); r.Ok? ==> RegionsOk(r.value, max)
    decreases |value| - at
  {
    var mid, end := at + 4 * ac, at + 4 * (ac + sc);
    if end <= |value| {
      var base, size := ReadBe(value[at..mid]), ReadBe(value[mid..end]);
      var pushed := PushRegion(acc, base, size, max);
      if size == 0 {
        RegLimits(value, end, ac, sc, acc, max);
      } else if pushed.Ok? {
        RegLimits(value, end, ac, sc, pushed.value, max);
      }
    }
  }

  lemma {:induction false} RsvLimits(blob: Bytes, off: nat, acc: seq<Region>)
    requires RegionsOk(acc, MAX_RSV_REGIONS)
    ensures var r := ReadRsv(blob, off, acc); r.Ok? ==> RegionsOk(r.value, MAX_RSV_REGIONS)
    decreases |blob| - off
  {
    if off + 16 <= |blob| {
      var base, size := ReadBe(blob[off..off + 8]), ReadBe(blob[off + 8..off + 16]);
      var pushed := PushRegion(acc, base, size, MAX_RSV_REGIONS);
      if size == 0 {
        RsvLimits(blob, off + 16, acc);
      } else if pushed.Ok? {
        RsvLimits(blob, off + 16, pushed.value);
      }
    }
  }

  lemma WalkLimits(w: Walker, t: Token)
    requires InfoOk(w.info)
    ensures Walk(w, t).Ok? ==> InfoOk(Walk(w, t).value.info)
  {
    hide RegFrom, IsMemory, IsSeed, RegionsOk;
    if t.Prop? {
      if 1 <= w.ac <= 2 && 1 <= w.sc <= 2 {
        RegLimits(t.value, 0, w.ac, w.sc, w.info.memory, MAX_MEM_REGIONS);
      }
      if 1 <= w.rac <= 2 && 1 <= w.rsc <= 2 {
        RegLimits(t.value, 0, w.rac, w.rsc, w.info.reserved, MAX_RSV_REGIONS);
      }
    }
  }

  lemma {:induction false} StructLimits(blob: Bytes, h: Header, off: nat, w: Walker)
    requires HeaderOk(blob, h) && off % 4 == 0 && InfoOk(w.info)
    ensures var r := WalkStruct(blob, h, off, w); r.Ok? ==> InfoOk(r.value)
    decreases |blob| - off
  {
    hide Scan, Walk, InfoOk, HeaderOk;
    match Scan(blob, h, off, |w.path|)
    case Err(e) =>
    case Ok((t, off')) =>
      WalkLimits(w, t);
      if t != Fin && Walk(w, t).Ok? {
        ScanMoves(blob, h, off, |w.path|);
        StructLimits(blob, h, off', Walk(w, t).value);
      }
  }

  /** Whatever the bytes, an accepted tree names one to eight memory regions, and every region is sound. */
  lemma ParseLimits(blob: Bytes)
    requires Parse(blob).Ok?
    ensures InfoOk(Parse(blob).value) && Parse(blob).value.memory != []
  {
    hide ReadRsv, ReadStruct, WalkStruct;
    ParsedByPath(blob);
    var h := ReadHeader(blob).value;
    RsvLimits(blob, h.offRsv, []);
    StructLimits(blob, h, h.offStruct, Starts(ReadRsv(blob, h.offRsv, []).value));
  }
}
