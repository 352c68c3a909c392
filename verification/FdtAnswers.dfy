/** What a malformed device tree is told: each error of the parser, exactly when it is given. */
module FdtAnswers {
  import opened Abi
  import opened FdtBytes
  import opened Fdt
  import opened FdtPaths
  import opened FdtBoards

  /** Word number `k` of the header. */
  function HeaderWord(blob: Bytes, k: nat): nat
    requires |blob| >= 40 && k < 10
  {
    ReadBe(blob[4 * k..4 * k + 4])
  }

  /**
    The header: a blob without one is Truncated; version 17 must lie between the two version words; the
    blocks must be aligned and lie in the blob.  An accepted header gives their bounds.
  */
  lemma HeaderAnswers(blob: Bytes)
    ensures ReadHeader(blob) == Err(Truncated) <==> |blob| < 40
    ensures |blob| >= 40 ==>
              var r, len := ReadHeader(blob), |blob|;
              var tokens, strings, rsv := HeaderWord(blob, 2), HeaderWord(blob, 3), HeaderWord(blob, 4);
              var stringsLen, tokensLen := HeaderWord(blob, 8), HeaderWord(blob, 9);
              var known := HeaderWord(blob, 6) <= 17 <= HeaderWord(blob, 5);
              var placed := && tokens % 4 == 0 && tokensLen % 4 == 0 && tokens + tokensLen <= len
                            && strings + stringsLen <= len && rsv % 8 == 0;
              && (r == Err(UnsupportedVersion) <==> !known)
              && (r == Err(BadHeader) <==> known && !placed)
              && (r.Ok? <==> known && placed)
              && (r.Ok? ==> r.value == Header(tokens, tokens + tokensLen, strings, strings + stringsLen, rsv))
  {
    hide ReadBe;
  }

  // ---------------------------------------------------------------- tokens

  /** A NUL in [from, to), the first of them at `at`. */
  ghost predicate EndsAt(blob: Bytes, from: nat, to: nat, at: nat) {
    from <= at < to <= |blob| && blob[at] == 0 && forall i :: from <= i < at ==> blob[i] != 0
  }

  ghost predicate NeverEnds(blob: Bytes, from: nat, to: nat) {
    from >= to || to > |blob| || forall i :: from <= i < to ==> blob[i] != 0
  }

  /** The first multiple of four at or above `n`. */
  predicate NextWord(n: nat, m: nat) {
    n <= m < n + 4 && m % 4 == 0
  }

  lemma UpIsNextWord(n: nat)
    ensures NextWord(n, Up4(n))
  {
  }

  /** The length word of the property at `off`, the offset of its name, and whether they and the value are there. */
  ghost predicate ValueFits(blob: Bytes, h: Header, off: nat) {
    off + 12 <= |blob| && off + 12 + ReadBe(blob[off + 4..off + 8]) <= h.structEnd
  }

  ghost function NameStart(blob: Bytes, h: Header, off: nat): nat
    requires off + 12 <= |blob|
  {
    h.offStrings + ReadBe(blob[off + 8..off + 12])
  }

  /**
    One token: 1 opens a node unless 32 are open, 2 closes one if one is open, 3 is a property of an open
    node, 4 is skipped, and 9 ends the block when none is open.
  */
  lemma TokenAnswers(blob: Bytes, h: Header, off: nat, depth: nat)
    requires HeaderOk(blob, h) && off % 4 == 0 && off < h.structEnd
    ensures var r, number := Scan(blob, h, off, depth), ReadBe(blob[off..off + 4]);
            var prop := number == 3 && depth > 0;
            && (r == Err(TooDeep) <==> number == 1 && depth >= 32)
            && (r == Err(Truncated) <==> prop && !ValueFits(blob, h, off))
            && (r == Err(BadString) <==>
                  prop && ValueFits(blob, h, off) && NeverEnds(blob, NameStart(blob, h, off), h.stringsEnd))
            && (r == Err(BadStructure) <==>
                  || (number == 1 && depth < 32 && NeverEnds(blob, off + 4, h.structEnd))
                  || ((number == 2 || number == 3) && depth == 0) || (number == 9 && depth != 0)
                  || number !in {1, 2, 3, 4, 9})
            && (r.Err? ==> r.error in {TooDeep, Truncated, BadString, BadStructure})
  {
    hide ReadBe, FindNul, Up4;
    if ReadBe(blob[off..off + 4]) == 1 && off + 4 <= h.structEnd {
      NulFound(blob, off + 4, h.structEnd);
    }
    if ReadBe(blob[off..off + 4]) == 3 && ValueFits(blob, h, off) && NameStart(blob, h, off) <= h.stringsEnd {
      NulFound(blob, NameStart(blob, h, off), h.stringsEnd);
    }
  }

  lemma NulFound(blob: Bytes, from: nat, to: nat)
    requires from <= to <= |blob|
    ensures FindNul(blob, from, to).None? <==> NeverEnds(blob, from, to)
    ensures FindNul(blob, from, to).Some? ==> EndsAt(blob, from, to, FindNul(blob, from, to).value)
  {
  }

  /** A node start whose name, from `from` on, ends with a NUL before `to`. */
  ghost predicate Opens(blob: Bytes, from: nat, to: nat, t: Token, next: nat) {
    t.Begin? && exists at: nat :: EndsAt(blob, from, to, at) && t.name == blob[from..at] && NextWord(at + 1, next)
  }

  ghost predicate NamedAt(blob: Bytes, from: nat, to: nat, name: Bytes) {
    exists at: nat :: EndsAt(blob, from, to, at) && name == blob[from..at]
  }

  /** What an accepted token is, and where the next one starts. */
  lemma TokenIs(blob: Bytes, h: Header, off: nat, depth: nat)
    requires HeaderOk(blob, h) && off % 4 == 0 && Scan(blob, h, off, depth).Ok?
    ensures var (t, next) := Scan(blob, h, off, depth).value;
            off < h.structEnd &&
            match ReadBe(blob[off..off + 4])
            case 1 => Opens(blob, off + 4, h.structEnd, t, next)
            case 2 => t == EndNode && next == off + 4
            case 3 => ValueFits(blob, h, off) &&
                      var len := ReadBe(blob[off + 4..off + 8]);
                      && t.Prop? && t.value == blob[off + 12..off + 12 + len] && NextWord(off + 12 + len, next)
                      && NamedAt(blob, NameStart(blob, h, off), h.stringsEnd, t.name)
            case 4 => t == Nop && next == off + 4
            case _ => t == Fin && next == off + 4
  {
    hide ReadBe, FindNul, Up4;
    var number := ReadBe(blob[off..off + 4]);
    if number == 1 {
      NulFound(blob, off + 4, h.structEnd);
      UpIsNextWord(FindNul(blob, off + 4, h.structEnd).value + 1);
    } else if number == 3 {
      var name := NameStart(blob, h, off);
      NulFound(blob, name, h.stringsEnd);
      UpIsNextWord(off + 12 + ReadBe(blob[off + 4..off + 8]));
      assert blob[name..FindNul(blob, name, h.stringsEnd).value] == Scan(blob, h, off, depth).value.0.name;
    }
  }

  // ---------------------------------------------------------------- lists of regions

  /** The entries of a reg value from byte `at` on. */
  function EntriesFrom(value: Bytes, at: nat, ac: nat, sc: nat): Entries
    requires ac + sc > 0
    decreases |value| - at
  {
    var mid, end := at + 4 * ac, at + 4 * (ac + sc);
    if end > |value| then []
    else [(ReadBe(value[at..mid]), ReadBe(value[mid..end]))] + EntriesFrom(value, end, ac, sc)
  }

  /** Entry `k` overflows, or comes when no more than `room` regions fit. */
  predicate Stops(es: Entries, k: nat, room: int)
    requires k < |es|
  {
    es[k].1 > 0 && (es[k].0 + es[k].1 >= 0x1_0000_0000_0000_0000 || |Sized(es[..k])| >= room)
  }

  ghost predicate FirstStop(es: Entries, k: nat, room: int) {
    k < |es| && Stops(es, k, room) && forall j: nat :: j < k ==> !Stops(es, j, room)
  }

  /** The verdict on entries with room for so many regions: all of non-zero size, or the fault of the first bad one. */
  ghost predicate RegVerdict(es: Entries, room: int, acc: seq<Region>, r: Result<seq<Region>, BootError>) {
    match r
    case Ok(rs) => rs == acc + Sized(es) && forall k: nat :: k < |es| ==> !Stops(es, k, room)
    case Err(e) =>
      exists k: nat :: FirstStop(es, k, room) &&
        e == if es[k].0 + es[k].1 >= 0x1_0000_0000_0000_0000 then BadReg else TooManyRegions
  }

  lemma {:induction false} RegFromAnswers(value: Bytes, at: nat, ac: nat, sc: nat, acc: seq<Region>, max: nat)
    requires 1 <= ac <= 2 && 1 <= sc <= 2 && |acc| <= max
    ensures RegVerdict(EntriesFrom(value, at, ac, sc), max - |acc|, acc, RegFrom(value, at, ac, sc, acc, max))
    decreases |value| - at
  {
    hide ReadBe;
    var end := at + 4 * (ac + sc);
    if end <= |value| {
      var es := EntriesFrom(value, at, ac, sc);
      var rest := EntriesFrom(value, end, ac, sc);
      assert es[1..] == rest;
      var r, room := RegFrom(value, at, ac, sc, acc, max), max - |acc|;
      if es[0].1 == 0 {
        RegFromAnswers(value, end, ac, sc, acc, max);
        Later(es, room, room, acc, acc, r);
      } else if Stops(es, 0, room) {
        assert FirstStop(es, 0, room);
      } else {
        var acc' := acc + [Region(es[0].0, es[0].1)];
        RegFromAnswers(value, end, ac, sc, acc', max);
        Later(es, room, room - 1, acc, acc', r);
      }
    }
  }

  lemma StopsLater(es: Entries, k: nat, room: int)
    requires 0 < k < |es|
    ensures var room' := if es[0].1 == 0 then room else room - 1;
            Stops(es, k, room) <==> Stops(es[1..], k - 1, room')
  {
    assert es[..k][1..] == es[1..][..k - 1] && es[..k][0] == es[0];
  }

  lemma StopsShift(es: Entries, room: int, room': int)
    requires es != [] && room' == (if es[0].1 == 0 then room else room - 1)
    ensures forall k: nat :: 0 < k < |es| ==> (Stops(es, k, room) <==> Stops(es[1..], k - 1, room'))
  {
    hide Stops;
    forall k: nat | 0 < k < |es|
      ensures Stops(es, k, room) <==> Stops(es[1..], k - 1, room')
    {
      StopsLater(es, k, room);
    }
  }

  lemma NoStopShift(es: Entries, room: int, room': int)
    requires es != [] && !Stops(es, 0, room) && room' == (if es[0].1 == 0 then room else room - 1)
    requires forall k: nat :: k < |es[1..]| ==> !Stops(es[1..], k, room')
    ensures forall k: nat :: k < |es| ==> !Stops(es, k, room)
  {
    hide Stops;
    StopsShift(es, room, room');
  }

  lemma FirstStopShift(es: Entries, room: int, room': int, k: nat)
    requires es != [] && !Stops(es, 0, room) && room' == (if es[0].1 == 0 then room else room - 1)
    requires FirstStop(es[1..], k, room')
    ensures FirstStop(es, k + 1, room) && es[1..][k] == es[k + 1]
  {
    hide Stops;
    StopsShift(es, room, room');
    forall j: nat | j < k + 1
      ensures !Stops(es, j, room)
    {
      assert j > 0 ==> !Stops(es[1..], j - 1, room');
    }
  }

  /** The verdict on the entries behind a good first one is the verdict on all. */
  lemma Later(es: Entries, room: int, room': int, acc: seq<Region>, acc': seq<Region>,
              r: Result<seq<Region>, BootError>)
    requires es != [] && !Stops(es, 0, room) && room' == (if es[0].1 == 0 then room else room - 1)
    requires acc' == if es[0].1 == 0 then acc else acc + [Region(es[0].0, es[0].1)]
    requires RegVerdict(es[1..], room', acc', r)
    ensures RegVerdict(es, room, acc, r)
  {
    hide Stops, Sized;
    if r.Ok? {
      SizedStep(es, acc);
      NoStopShift(es, room, room');
    } else {
      var k: nat :| FirstStop(es[1..], k, room') &&
        r.error == if es[1..][k].0 + es[1..][k].1 >= 0x1_0000_0000_0000_0000 then BadReg else TooManyRegions;
      FirstStopShift(es, room, room', k);
    }
  }

  // ---------------------------------------------------------------- the reservation block

  /** The pairs from `off` to the first (0, 0), and whether it comes before the blob ends. */
  function PairsFrom(blob: Bytes, off: nat): (Entries, bool)
    decreases |blob| - off
  {
    if off + 16 > |blob| then ([], false)
    else
      var e := (ReadBe(blob[off..off + 8]), ReadBe(blob[off + 8..off + 16]));
      if e == (0, 0) then ([], true)
      else
        var (es, ended) := PairsFrom(blob, off + 16);
        ([e] + es, ended)
  }

  /** As for reg values; a list without a bad pair that does not end is Truncated. */
  ghost predicate PairsVerdict(es: Entries, ended: bool, room: int, acc: seq<Region>,
                               r: Result<seq<Region>, BootError>) {
    if r == Err(Truncated) then !ended && forall k: nat :: k < |es| ==> !Stops(es, k, room)
    else RegVerdict(es, room, acc, r) && (r.Ok? ==> ended)
  }

  /** The reservation block, with room for eight regions in all. */
  lemma {:induction false} PairsAnswers(blob: Bytes, off: nat, acc: seq<Region>)
    requires |acc| <= 8
    ensures var (es, ended) := PairsFrom(blob, off);
            PairsVerdict(es, ended, 8 - |acc|, acc, ReadRsv(blob, off, acc))
    decreases |blob| - off
  {
    hide ReadBe, RegVerdict;
    if off + 16 <= |blob| {
      var (es, ended) := PairsFrom(blob, off);
      var r, room := ReadRsv(blob, off, acc), 8 - |acc|;
      if es == [] {
        NoEntries(room, acc);
      } else {
        assert es[1..] == PairsFrom(blob, off + 16).0;
        if es[0].1 == 0 {
          PairsAnswers(blob, off + 16, acc);
          LaterPairs(es, ended, room, room, acc, acc, r);
        } else if Stops(es, 0, room) {
          StopsAtOnce(es, room, acc, r);
        } else {
          var acc' := acc + [Region(es[0].0, es[0].1)];
          PairsAnswers(blob, off + 16, acc');
          LaterPairs(es, ended, room, room - 1, acc, acc', r);
        }
      }
    }
  }

  lemma NoEntries(room: int, acc: seq<Region>)
    ensures RegVerdict([], room, acc, Ok(acc))
  {
    assert acc + Sized([]) == acc;
  }

  lemma StopsAtOnce(es: Entries, room: int, acc: seq<Region>, r: Result<seq<Region>, BootError>)
    requires es != [] && Stops(es, 0, room)
    requires r == Err(if es[0].0 + es[0].1 >= 0x1_0000_0000_0000_0000 then BadReg else TooManyRegions)
    ensures RegVerdict(es, room, acc, r)
  {
    assert FirstStop(es, 0, room);
  }

  lemma LaterPairs(es: Entries, ended: bool, room: int, room': int, acc: seq<Region>, acc': seq<Region>,
                   r: Result<seq<Region>, BootError>)
    requires es != [] && !Stops(es, 0, room) && room' == (if es[0].1 == 0 then room else room - 1)
    requires acc' == if es[0].1 == 0 then acc else acc + [Region(es[0].0, es[0].1)]
    requires PairsVerdict(es[1..], ended, room', acc', r)
    ensures PairsVerdict(es, ended, room, acc, r)
  {
    hide Stops, RegVerdict;
    if r != Err(Truncated) {
      Later(es, room, room', acc, acc', r);
    } else {
      NoStopShift(es, room, room');
    }
  }

  // ---------------------------------------------------------------- properties

  /** A reg value: cells of 1 or 2, whole entries and at least one, and then the first bad entry decides. */
  lemma RegAnswers(value: Bytes, ac: nat, sc: nat, acc: seq<Region>, max: nat)
    requires |acc| <= max
    ensures var r := ReadReg(value, ac, sc, acc, max);
            if !(1 <= ac <= 2) || !(1 <= sc <= 2) then r == Err(UnsupportedCells)
            else if value == [] || |value| % (4 * (ac + sc)) != 0 then r == Err(BadReg)
            else RegVerdict(EntriesFrom(value, 0, ac, sc), max - |acc|, acc, r)
  {
    hide RegVerdict, RegFrom, EntriesFrom;
    if 1 <= ac <= 2 && 1 <= sc <= 2 {
      RegFromAnswers(value, 0, ac, sc, acc, max);
    }
  }

  /**
    A property by the path of its node: cell counts of the root and of /reserved-memory must be one word, and
    set one field; reg is read in memory nodes and below /reserved-memory; everything else is accepted.
  */
  lemma PropAnswers(w: Walker, name: Bytes, value: Bytes)
    ensures var r, role := PropAt(w, name, value), RoleOf(w.path);
            var cells := (role == RootNode || role == ReservedNode) && (name == ADDRESS_CELLS || name == SIZE_CELLS);
            var reg := (role == MemoryNode || role == ReservedChild) && name == REG;
            && (cells ==> (r == Err(UnsupportedCells) <==> |value| != 4) && (r.Ok? <==> |value| == 4))
            && (cells && r.Ok? ==>
                  var n := ReadBe(value);
                  r.value == if role == RootNode then if name == ADDRESS_CELLS then w.(ac := n) else w.(sc := n)
                             else if name == ADDRESS_CELLS then w.(rac := n) else w.(rsc := n))
            && (!cells && !reg ==> r.Ok? && r.value == w.(info := r.value.info))
            && (!cells && !reg && !(role == ChosenNode && IsSeed(name)) ==> r == Ok(w))
  {
    hide ReadBe, ReadReg, RoleOf;
  }
}
