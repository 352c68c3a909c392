/** The parser as it runs: fixed arrays, byte offsets and depth flags, proved to compute `Fdt.Parse`. */
module FdtParser {
  import opened Abi
  import opened FdtBytes
  import opened Fdt

  /** `read_cells`: shift and or, in 64 bits. */
  method ReadCells(b: Bytes) returns (v: nat)
    requires |b| <= 8
    ensures v == ReadBe(b) && v < TWO_64
  {
    v := 0;
    var i := 0;
    assert b[..0] == [];
    while i < |b|
      invariant i <= |b| && v == ReadBe(b[..i])
    {
      ShiftFits(b, i);
      assert b[..i + 1][..i] == b[..i];
      v := v * 256 % TWO_64 + b[i];
      i := i + 1;
    }
    assert b[..i] == b;
    ReadBound(b);
    PowerGrows(|b|, 8);
    Words();
  }

  lemma ShiftFits(b: Bytes, i: nat)
    requires i < |b| <= 8
    ensures ReadBe(b[..i]) * 256 < TWO_64
  {
    ReadBound(b[..i]);
    PowerGrows(i + 1, 8);
    Words();
  }

  lemma {:induction false} PowerGrows(m: nat, n: nat)
    requires m <= n
    ensures Pow256(m) <= Pow256(n)
    decreases n
  {
    if m < n {
      PowerGrows(m, n - 1);
    }
  }

  /** The offset arithmetic of `align4` keeps words whole. */
  method AlignFour(off: nat) returns (r: nat)
    ensures r == Up4(off) && r % 4 == 0 && off <= r < off + 4
  {
    r := (off + 3) / 4 * 4;
  }

  /** `parse_reg`: entries go behind the first `count` elements of `out`, which stay as they are. */
  method ParseReg(value: Bytes, ac: nat, sc: nat, out: array<Region>, count: nat) returns (r: Result<nat, BootError>)
    requires count <= out.Length
    modifies out
    ensures out[..count] == old(out[..count])
    ensures var want := ReadReg(value, ac, sc, old(out[..count]), out.Length);
            if want.Err? then r == Err(want.error)
            else r == Ok(|want.value|) && count <= |want.value| <= out.Length && out[..|want.value|] == want.value
  {
    hide RegFrom;
    if !(1 <= ac <= 2) || !(1 <= sc <= 2) {
      return Err(UnsupportedCells);
    }
    if |value| == 0 || |value| % (4 * (ac + sc)) != 0 {
      return Err(BadReg);
    }
    r := ParseEntries(value, ac, sc, out, count);
  }

  /** The loop over the entries of a reg value. */
  method ParseEntries(value: Bytes, ac: nat, sc: nat, out: array<Region>, count: nat)
    returns (r: Result<nat, BootError>)
    requires count <= out.Length && 1 <= ac <= 2 && 1 <= sc <= 2
    modifies out
    ensures out[..count] == old(out[..count])
    ensures var want := RegFrom(value, 0, ac, sc, old(out[..count]), out.Length);
            if want.Err? then r == Err(want.error)
            else r == Ok(|want.value|) && count <= |want.value| <= out.Length && out[..|want.value|] == want.value
  {
    hide ReadBe, RegFrom;
    var entry := (ac + sc) * 4;
    ghost var acc := out[..count];
    var n, at := count, 0;
    while at + entry <= |value|
      invariant count <= n <= out.Length && out[..count] == acc
      invariant RegFrom(value, 0, ac, sc, acc, out.Length) == RegFrom(value, at, ac, sc, out[..n], out.Length)
      decreases |value| - at
    {
      var mid := at + ac * 4;
      var base := ReadCells(value[at..mid]);
      var size := ReadCells(value[mid..at + entry]);
      RegStep(value, at, ac, sc, out[..n], out.Length);
      at := at + entry;
      if size != 0 {
        if base + size >= TWO_64 {
          return Err(BadReg);
        }
        if n == out.Length {
          return Err(TooManyRegions);
        }
        ghost var before := out[..n];
        out[n] := Region(base, size);
        n := n + 1;
        assert out[..n] == before + [Region(base, size)];
      }
    }
    RegStop(value, at, ac, sc, out[..n], out.Length);
    r := Ok(n);
  }

  lemma RegStep(value: Bytes, at: nat, ac: nat, sc: nat, acc: seq<Region>, max: nat)
    requires 1 <= ac <= 2 && 1 <= sc <= 2 && at + (ac + sc) * 4 <= |value|
    ensures var mid, end := at + ac * 4, at + (ac + sc) * 4;
            var base, size := ReadBe(value[at..mid]), ReadBe(value[mid..end]);
            RegFrom(value, at, ac, sc, acc, max) ==
              if size == 0 then RegFrom(value, end, ac, sc, acc, max)
              else if base + size >= TWO_64 then Err(BadReg)
              else if |acc| == max then Err(TooManyRegions)
              else RegFrom(value, end, ac, sc, acc + [Region(base, size)], max)
  {
    hide ReadBe;
  }

  lemma RegStop(value: Bytes, at: nat, ac: nat, sc: nat, acc: seq<Region>, max: nat)
    requires 1 <= ac <= 2 && 1 <= sc <= 2 && at + (ac + sc) * 4 > |value|
    ensures RegFrom(value, at, ac, sc, acc, max) == Ok(acc)
  {
  }

  class BootInfo {
    const regions: array<Region>
    var regionCount: nat
    const reserved: array<Region>
    var reservedCount: nat
    const entropy: array<byte>
    var entropyLen: nat

    ghost predicate Valid()
      reads this
    {
      && regions.Length == MAX_MEM_REGIONS && reserved.Length == MAX_RSV_REGIONS && entropy.Length == MAX_ENTROPY
      && regionCount <= regions.Length && reservedCount <= reserved.Length && entropyLen <= entropy.Length
      && regions != reserved
    }

    ghost function View(): Info
      requires Valid()
      reads this, regions, reserved, entropy
    {
      Info(regions[..regionCount], reserved[..reservedCount], entropy[..entropyLen])
    }

    constructor ()
      ensures Valid() && View() == Info([], [], []) && fresh(regions) && fresh(reserved) && fresh(entropy)
    {
      regions := new Region[MAX_MEM_REGIONS](_ => Region(0, 0));
      reserved := new Region[MAX_RSV_REGIONS](_ => Region(0, 0));
      entropy := new byte[MAX_ENTROPY](_ => 0);
      regionCount, reservedCount, entropyLen := 0, 0, 0;
    }

    method PushReserved(base: nat, size: nat) returns (r: Result<(), BootError>)
      requires Valid()
      modifies `reservedCount, reserved
      ensures Valid()
      ensures var want := PushRegion(old(View()).reserved, base, size, MAX_RSV_REGIONS);
              if want.Err? then r == Err(want.error) && View() == old(View())
              else r.Ok? && View() == old(View()).(reserved := want.value)
    {
      if base + size >= TWO_64 {
        return Err(BadReg);
      }
      if reservedCount == MAX_RSV_REGIONS {
        return Err(TooManyRegions);
      }
      reserved[reservedCount] := Region(base, size);
      reservedCount := reservedCount + 1;
      assert reserved[..reservedCount] == old(reserved[..reservedCount]) + [Region(base, size)];
      r := Ok(());
    }

    method PushRegions(value: Bytes, ac: nat, sc: nat) returns (r: Result<(), BootError>)
      requires Valid()
      modifies `regionCount, regions
      ensures Valid()
      ensures var want := ReadReg(value, ac, sc, old(View()).memory, MAX_MEM_REGIONS);
              if want.Err? then r == Err(want.error) && View() == old(View())
              else r.Ok? && View() == old(View()).(memory := want.value)
    {
      hide ReadReg;
      var n := ParseReg(value, ac, sc, regions, regionCount);
      if n.Err? {
        return Err(n.error);
      }
      regionCount := n.value;
      r := Ok(());
    }

    method PushReservedRegions(value: Bytes, ac: nat, sc: nat) returns (r: Result<(), BootError>)
      requires Valid()
      modifies `reservedCount, reserved
      ensures Valid()
      ensures var want := ReadReg(value, ac, sc, old(View()).reserved, MAX_RSV_REGIONS);
              if want.Err? then r == Err(want.error) && View() == old(View())
              else r.Ok? && View() == old(View()).(reserved := want.value)
    {
      hide ReadReg;
      var n := ParseReg(value, ac, sc, reserved, reservedCount);
      if n.Err? {
        return Err(n.error);
      }
      reservedCount := n.value;
      r := Ok(());
    }

    /** `push_entropy`: as many bytes as still fit. */
    method PushEntropy(value: Bytes)
      requires Valid()
      modifies `entropyLen, entropy
      ensures Valid() && View() == old(View()).(entropy := AddEntropy(old(View()).entropy, value))
    {
      var cap := MAX_ENTROPY - entropyLen;
      var n := if |value| < cap then |value| else cap;
      var i := 0;
      ghost var before := entropy[..entropyLen];
      while i < n
        invariant i <= n && entropyLen == old(entropyLen)
        invariant entropy[..entropyLen + i] == before + value[..i]
      {
        entropy[entropyLen + i] := value[i];
        i := i + 1;
        assert entropy[..entropyLen + i] == entropy[..entropyLen + i - 1] + [value[i - 1]];
      }
      entropyLen := entropyLen + n;
      assert value[..|value|] == value;
    }

    /** The reservation block. */
    method ReadReservations(blob: Bytes, start: nat) returns (r: Result<(), BootError>)
      requires Valid()
      modifies `reservedCount, reserved
      ensures Valid()
      ensures var want := ReadRsv(blob, start, old(View()).reserved);
              if want.Err? then r == Err(want.error)
              else r.Ok? && View() == old(View()).(reserved := want.value)
    {
      var off := start;
      ghost var acc := View().reserved;
      while true
        invariant Valid()
        invariant ReadRsv(blob, start, acc) == ReadRsv(blob, off, View().reserved)
        decreases |blob| - off
      {
        if off + 16 > |blob| {
          return Err(Truncated);
        }
        var base := ReadCells(blob[off..off + 8]);
        var size := ReadCells(blob[off + 8..off + 16]);
        off := off + 16;
        if base == 0 && size == 0 {
          return Ok(());
        }
        if size != 0 {
          var pushed := PushReserved(base, size);
          if pushed.Err? {
            return pushed;
          }
        }
      }
    }
  }

  // ---------------------------------------------------------------- tokens

  method PropName(blob: Bytes, h: Header, nameOff: nat) returns (r: Result<Bytes, BootError>)
    requires HeaderOk(blob, h)
    ensures r == NameAt(blob, h, nameOff)
  {
    var start := h.offStrings + nameOff;
    if start >= h.stringsEnd {
      return Err(BadString);
    }
    var e := FindNulLoop(blob, start, h.stringsEnd);
    if e.None? {
      return Err(BadString);
    }
    r := Ok(blob[start..e.value]);
  }

  /** The token at `off`: no byte outside the blob is touched and the offset stays word-aligned in the block. */
  method NextToken(blob: Bytes, h: Header, off: nat, depth: nat) returns (r: Result<(Token, nat), BootError>)
    requires HeaderOk(blob, h) && off % 4 == 0
    ensures r == Scan(blob, h, off, depth)
    ensures r.Ok? ==> off < r.value.1 <= h.structEnd && r.value.1 % 4 == 0
  {
    if off >= h.structEnd {
      return Err(BadStructure);
    }
    var token := ReadCells(blob[off..off + 4]);
    var at := off + 4;
    if token == BEGIN_NODE {
      if depth + 1 > MAX_DEPTH {
        return Err(TooDeep);
      }
      var e := FindNulLoop(blob, at, h.structEnd);
      if e.None? {
        return Err(BadStructure);
      }
      var next := AlignFour(e.value + 1);
      r := Ok((Begin(blob[at..e.value]), next));
    } else if token == END_NODE {
      r := if depth == 0 then Err(BadStructure) else Ok((EndNode, at));
    } else if token == PROP {
      if depth == 0 {
        return Err(BadStructure);
      }
      r := NextProp(blob, h, at);
    } else if token == NOP {
      r := Ok((Nop, at));
    } else if token == END {
      r := if depth != 0 then Err(BadStructure) else Ok((Fin, at));
    } else {
      r := Err(BadStructure);
    }
  }

  method NextProp(blob: Bytes, h: Header, off: nat) returns (r: Result<(Token, nat), BootError>)
    requires HeaderOk(blob, h)
    ensures r == ScanProp(blob, h, off)
  {
    if off + 8 > |blob| {
      return Err(Truncated);
    }
    var len := ReadCells(blob[off..off + 4]);
    var nameOff := ReadCells(blob[off + 4..off + 8]);
    var start := off + 8;
    if start + len > h.structEnd {
      return Err(Truncated);
    }
    var name := PropName(blob, h, nameOff);
    if name.Err? {
      return Err(name.error);
    }
    var next := AlignFour(start + len);
    r := Ok((Prop(name.value, blob[start..start + len]), next));
  }

  // ---------------------------------------------------------------- the structure block

  /** The body of the token loop for a property. */
  method TakeProp(info: BootInfo, ghost st: Reading, name: Bytes, value: Bytes, depth: nat, memoryDepth: Option<nat>,
                  chosenDepth: Option<nat>, rsvNode: bool, ac: nat, sc: nat, rac: nat, rsc: nat)
    returns (r: Result<(nat, nat, nat, nat), BootError>)
    requires info.Valid() && st == Reading(depth, memoryDepth, chosenDepth, rsvNode, ac, sc, rac, rsc, info.View())
    modifies info, info.regions, info.reserved, info.entropy
    ensures info.Valid()
    ensures var want := ReadProp(st, name, value);
            if want.Err? then r == Err(want.error)
            else r.Ok? && want.value == st.(ac := r.value.0, sc := r.value.1, rac := r.value.2, rsc := r.value.3,
                                            info := info.View())
  {
    hide ReadReg, AddEntropy, IsSeed;
    r := Ok((ac, sc, rac, rsc));
    if depth == 1 || (rsvNode && depth == 2 && !(memoryDepth == Some(depth) && name == REG)) {
      if name == ADDRESS_CELLS || name == SIZE_CELLS {
        var n := CellCount(value);
        if n.Err? {
          return Err(n.error);
        }
        r := if depth == 1 then
          (if name == ADDRESS_CELLS then Ok((n.value, sc, rac, rsc)) else Ok((ac, n.value, rac, rsc)))
        else
          (if name == ADDRESS_CELLS then Ok((ac, sc, n.value, rsc)) else Ok((ac, sc, rac, n.value)));
      }
    } else if memoryDepth == Some(depth) && name == REG {
      var pushed := info.PushRegions(value, ac, sc);
      if pushed.Err? {
        return Err(pushed.error);
      }
    } else if rsvNode && depth == 3 && name == REG {
      var pushed := info.PushReservedRegions(value, rac, rsc);
      if pushed.Err? {
        return Err(pushed.error);
      }
    } else if chosenDepth == Some(depth) && IsSeed(name) {
      info.PushEntropy(value);
    }
  }

  /** The token loop. */
  method ReadStructure(blob: Bytes, h: Header, info: BootInfo) returns (r: Result<(), BootError>)
    requires HeaderOk(blob, h) && info.Valid() && info.View() == Info([], info.View().reserved, [])
    modifies info, info.regions, info.reserved, info.entropy
    ensures info.Valid()
    ensures var want := ReadStruct(blob, h, h.offStruct, Begins(old(info.View()).reserved));
            if want.Err? then r == Err(want.error) else r.Ok? && info.View() == want.value
  {
    hide ReadProp, Scan, IsMemory, HeaderOk;
    ghost var first := Begins(info.View().reserved);
    var ac, sc, rac, rsc, depth := 2, 1, 2, 1, 0;
    var memoryDepth: Option<nat>, chosenDepth: Option<nat>, rsvNode := None, None, false;
    var off := h.offStruct;
    Starts4(blob, h);
    while true
      invariant info.Valid() && off % 4 == 0
      invariant ReadStruct(blob, h, h.offStruct, first) ==
                ReadStruct(blob, h, off, Reading(depth, memoryDepth, chosenDepth, rsvNode, ac, sc, rac, rsc,
                                                 info.View()))
      decreases |blob| - off
    {
      ghost var st := Reading(depth, memoryDepth, chosenDepth, rsvNode, ac, sc, rac, rsc, info.View());
      var scanned := NextToken(blob, h, off, depth);
      if scanned.Err? {
        return Err(scanned.error);
      }
      Inside(blob, h, scanned.value.1);
      off := scanned.value.1;
      match scanned.value.0 {
        case Begin(name) =>
          depth := depth + 1;
          if depth == 1 && name != [] {
            return Err(BadStructure);
          }
          if depth == 2 && IsMemory(name) {
            memoryDepth := Some(depth);
          }
          if depth == 2 && name == CHOSEN {
            chosenDepth := Some(depth);
          }
          if depth == 2 && name == RESERVED_MEMORY {
            rsvNode, rac, rsc := true, ac, sc;
          }
        case EndNode =>
          if depth == 0 {
            return Err(BadStructure);
          }
          if memoryDepth == Some(depth) {
            memoryDepth := None;
          }
          if chosenDepth == Some(depth) {
            chosenDepth := None;
          }
          if rsvNode && depth == 2 {
            rsvNode := false;
          }
          depth := depth - 1;
        case Prop(name, value) =>
          var cells := TakeProp(info, st, name, value, depth, memoryDepth, chosenDepth, rsvNode, ac, sc, rac, rsc);
          if cells.Err? {
            return Err(cells.error);
          }
          ac, sc, rac, rsc := cells.value.0, cells.value.1, cells.value.2, cells.value.3;
        case Nop =>
        case Fin =>
          return Ok(());
      }
    }
  }

  lemma Starts4(blob: Bytes, h: Header)
    requires HeaderOk(blob, h)
    ensures h.offStruct % 4 == 0
  {
  }

  lemma Inside(blob: Bytes, h: Header, off: nat)
    requires HeaderOk(blob, h) && off <= h.structEnd
    ensures off <= |blob|
  {
  }

  method ReadHeaderWords(blob: Bytes) returns (r: Result<Header, BootError>)
    ensures r == ReadHeader(blob)
  {
    hide CheckHeader;
    if |blob| < 40 {
      return Err(Truncated);
    }
    var offStruct := ReadCells(blob[8..12]);
    var offStrings := ReadCells(blob[12..16]);
    var offRsv := ReadCells(blob[16..20]);
    var version := ReadCells(blob[20..24]);
    var lastComp := ReadCells(blob[24..28]);
    var sizeStrings := ReadCells(blob[32..36]);
    var sizeStruct := ReadCells(blob[36..40]);
    r := CheckHeader(|blob|, offStruct, offStrings, offRsv, version, lastComp, sizeStrings, sizeStruct);
  }

  /** `parse_blob`: terminates on every byte sequence with the verdict of `Fdt.Parse`. */
  method ParseBlob(blob: Bytes) returns (r: Result<BootInfo, BootError>)
    ensures var want := Parse(blob);
            if want.Err? then r == Err(want.error)
            else r.Ok? && r.value.Valid() && r.value.View() == want.value
  {
    hide ReadRsv, ReadStruct, ReadHeader, HeaderOk;
    var h := ReadHeaderWords(blob);
    if h.Err? {
      return Err(h.error);
    }
    var info := new BootInfo();
    var done := info.ReadReservations(blob, h.value.offRsv);
    if done.Err? {
      return Err(done.error);
    }
    done := ReadStructure(blob, h.value, info);
    if done.Err? {
      return Err(done.error);
    }
    if info.regionCount == 0 {
      return Err(NoMemory);
    }
    r := Ok(info);
  }
}
