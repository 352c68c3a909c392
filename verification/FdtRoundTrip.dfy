/** Parsing a printed tree gives the path-based reading of the printed tokens, whatever they are. */
module FdtRoundTrip {
  import opened Abi
  import opened FdtBytes
  import opened Fdt
  import opened FdtPaths
  import opened FdtPrinter

  /** The path-based reading of a token sequence. */
  function Fold(w: Walker, ts: seq<Token>): Result<Walker, BootError>
    decreases |ts|
  {
    if ts == [] then Ok(w)
    else
      match Walk(w, ts[0])
      case Err(e) => Err(e)
      case Ok(w') => Fold(w', ts[1..])
  }

  /** From `depth` the tokens stay within the limit, keep properties inside nodes, and end at depth `end`. */
  predicate Level(ts: seq<Token>, depth: nat, end: nat)
    decreases |ts|
  {
    if ts == [] then depth == end
    else
      match ts[0]
      case Begin(_) => depth < MAX_DEPTH && Level(ts[1..], depth + 1, end)
      case EndNode => depth > 0 && Level(ts[1..], depth - 1, end)
      case Prop(_, _) => depth > 0 && Level(ts[1..], depth, end)
      case Nop => Level(ts[1..], depth, end)
      case Fin => false
  }

  predicate CleanNames(ts: seq<Token>) {
    forall i :: 0 <= i < |ts| ==> (ts[i].Begin? ==> NoNul(ts[i].name)) && (ts[i].Prop? ==> NoNul(ts[i].name))
  }

  lemma {:induction false} LevelAppend(a: seq<Token>, b: seq<Token>, d: nat, e: nat, f: nat)
    requires Level(a, d, e) && Level(b, e, f)
    ensures Level(a + b, d, f)
    decreases |a|
  {
    if a == [] {
      assert a + b == b;
    } else {
      assert (a + b)[1..] == a[1..] + b;
      match a[0]
      case Begin(_) => LevelAppend(a[1..], b, d + 1, e, f);
      case EndNode => LevelAppend(a[1..], b, d - 1, e, f);
      case Prop(_, _) => LevelAppend(a[1..], b, d, e, f);
      case Nop => LevelAppend(a[1..], b, d, e, f);
      case Fin =>
    }
  }

  lemma CleanAppend(a: seq<Token>, b: seq<Token>)
    requires CleanNames(a) && CleanNames(b)
    ensures CleanNames(a + b)
  {
  }

  lemma WalkDepth(w: Walker, t: Token)
    requires Walk(w, t).Ok?
    ensures |Walk(w, t).value.path| ==
            match t case Begin(_) => |w.path| + 1 case EndNode => |w.path| - 1 case _ => |w.path|
  {
    hide ReadReg, IsMemory, IsSeed, CellCount;
  }

  // ---------------------------------------------------------------- the structure block

  /** The structure block read to its end: the meaning of the tokens, or an error when END is missing. */
  function Closing(f: Format, r: Result<Walker, BootError>): Result<Info, BootError> {
    match r
    case Err(e) => Err(e)
    case Ok(w) => if f.terminate then Ok(w.info) else Err(BadStructure)
  }

  lemma {:induction false} StructPrinted(f: Format, blob: Bytes, h: Header, off: nat, names: seq<Bytes>, ts: seq<Token>,
                                         rest: Bytes, w: Walker, end: nat)
    requires HeaderOk(blob, h) && off % 4 == 0 && |blob| < 0x1_0000_0000 && (f.terminate ==> end == 0)
    requires blob[h.offStrings..h.stringsEnd] == Join(names) && Named(names, ts) && CleanNames(ts)
    requires Level(ts, |w.path|, end)
    requires off <= |blob| && blob[off..] == EncodeAll(names, ts) + (Tail(f) + rest)
    requires off + |EncodeAll(names, ts)| + |Tail(f)| == h.structEnd
    ensures WalkStruct(blob, h, off, w) == Closing(f, Fold(w, ts))
    decreases |ts|
  {
    hide Encode, Scan, Walk, HeaderOk, Be, Join, Tail;
    if ts == [] {
      assert EncodeAll(names, ts) + (Tail(f) + rest) == Tail(f) + rest;
      TailScanned(f, blob, h, off, names, rest, |w.path|);
    } else {
      var t, more := ts[0], EncodeAll(names, ts[1..]) + (Tail(f) + rest);
      Assoc(Encode(names, t), EncodeAll(names, ts[1..]), Tail(f) + rest);
      FirstToken(names, ts, |w.path|, end);
      EncodeWhole(names, t);
      ScanPrinted(blob, h, off, names, t, more, |w.path|);
      if Walk(w, t).Ok? {
        WalkDepth(w, t);
        Rest(names, ts);
        StructPrinted(f, blob, h, off + |Encode(names, t)|, names, ts[1..], rest, Walk(w, t).value, end);
      }
    }
  }

  lemma TailScanned(f: Format, blob: Bytes, h: Header, off: nat, names: seq<Bytes>, rest: Bytes, depth: nat)
    requires HeaderOk(blob, h) && off % 4 == 0 && |blob| < 0x1_0000_0000 && (f.terminate ==> depth == 0)
    requires blob[h.offStrings..h.stringsEnd] == Join(names)
    requires off <= |blob| && blob[off..] == Tail(f) + rest && off + |Tail(f)| == h.structEnd
    ensures if f.terminate then Scan(blob, h, off, depth).Ok? && Scan(blob, h, off, depth).value.0 == Fin
            else Scan(blob, h, off, depth) == Err(BadStructure)
  {
    hide Be, Join, HeaderOk;
    if f.terminate {
      hide Scan;
      FinEncodes(names);
      ScanPrinted(blob, h, off, names, Fin, rest, depth);
    }
  }

  lemma FinEncodes(names: seq<Bytes>)
    ensures Encode(names, Fin) == Be(4, END)
  {
  }

  lemma FirstToken(names: seq<Bytes>, ts: seq<Token>, depth: nat, end: nat)
    requires ts != [] && Named(names, ts) && CleanNames(ts) && Level(ts, depth, end)
    ensures TokenOk(names, ts[0], depth) && !ts[0].Fin?
  {
  }

  lemma Rest(names: seq<Bytes>, ts: seq<Token>)
    requires ts != [] && Named(names, ts) && CleanNames(ts)
    ensures Named(names, ts[1..]) && CleanNames(ts[1..])
  {
  }

  // ---------------------------------------------------------------- the reservation block

  predicate IsWord64(e: (nat, nat)) {
    e.0 < TWO_64 && e.1 < TWO_64
  }

  /** The entries before the first (0, 0), without the empty ones, as far as the list holds them. */
  function RsvList(rsv: seq<(nat, nat)>, acc: seq<Region>): Result<seq<Region>, BootError> {
    if rsv == [] || rsv[0] == (0, 0) then Ok(acc)
    else if rsv[0].1 == 0 then RsvList(rsv[1..], acc)
    else
      match PushRegion(acc, rsv[0].0, rsv[0].1, MAX_RSV_REGIONS)
      case Err(e) => Err(e)
      case Ok(acc') => RsvList(rsv[1..], acc')
  }

  lemma Be64Reads(blob: Bytes, off: nat, v: nat, rest: Bytes)
    requires off <= |blob| && v < TWO_64 && blob[off..] == Be(8, v) + rest
    ensures off + 8 <= |blob| && ReadBe(blob[off..off + 8]) == v && blob[off + 8..] == rest
  {
    hide Be, ReadBe;
    Words();
    BeReads(8, v);
    Cut(blob, off, Be(8, v), rest);
  }

  lemma ZerosAre()
    ensures Zeros(16) == Be(8, 0) + Be(8, 0)
  {
    ZeroBytes(8);
  }

  lemma {:induction false} ZeroBytes(n: nat)
    ensures Be(n, 0) == Zeros(n)
  {
    if n > 0 {
      ZeroBytes(n - 1);
    }
  }

  lemma {:induction false} RsvPrinted(blob: Bytes, off: nat, rsv: seq<(nat, nat)>, acc: seq<Region>, rest: Bytes)
    requires off <= |blob| && blob[off..] == RsvBytes(rsv) + (Zeros(16) + rest)
    requires forall i :: 0 <= i < |rsv| ==> IsWord64(rsv[i])
    ensures ReadRsv(blob, off, acc) == RsvList(rsv, acc)
    decreases |rsv|
  {
    hide Be, ReadBe, Zeros;
    var first := if rsv == [] then (0, 0) else rsv[0];
    var tail := if rsv == [] then rest else RsvBytes(rsv[1..]) + (Zeros(16) + rest);
    RsvFirst(rsv, rest);
    Be64Reads(blob, off, first.0, Be(8, first.1) + tail);
    Be64Reads(blob, off + 8, first.1, tail);
    if rsv != [] && rsv[0] != (0, 0) {
      if rsv[0].1 == 0 {
        RsvPrinted(blob, off + 16, rsv[1..], acc, rest);
      } else {
        var pushed := PushRegion(acc, rsv[0].0, rsv[0].1, MAX_RSV_REGIONS);
        if pushed.Ok? {
          RsvPrinted(blob, off + 16, rsv[1..], pushed.value, rest);
        }
      }
    }
  }

  lemma RsvFirst(rsv: seq<(nat, nat)>, rest: Bytes)
    ensures var first := if rsv == [] then (0, 0) else rsv[0];
            var tail := if rsv == [] then rest else RsvBytes(rsv[1..]) + (Zeros(16) + rest);
            RsvBytes(rsv) + (Zeros(16) + rest) == Be(8, first.0) + (Be(8, first.1) + tail)
  {
    ZerosAre();
    hide Be, Zeros;
    if rsv == [] {
      assert RsvBytes(rsv) + (Zeros(16) + rest) == Zeros(16) + rest;
      Assoc(Be(8, 0), Be(8, 0), rest);
    } else {
      var a, b, c := Be(8, rsv[0].0), Be(8, rsv[0].1), RsvBytes(rsv[1..]);
      Assoc(a + b, c, Zeros(16) + rest);
      Assoc(a, b, c + (Zeros(16) + rest));
    }
  }

  lemma {:induction false} RsvLength(rsv: seq<(nat, nat)>)
    ensures |RsvBytes(rsv)| == 16 * |rsv|
  {
    if rsv != [] {
      RsvLength(rsv[1..]);
    }
  }

  // ---------------------------------------------------------------- the header

  lemma {:induction false} WordAt(blob: Bytes, off: nat, ws: seq<nat>, rest: Bytes, k: nat)
    requires off <= |blob| && blob[off..] == WordBytes(ws) + rest && k < |ws| && ws[k] < 0x1_0000_0000
    ensures off + 4 * k + 4 <= |blob| && ReadBe(blob[off + 4 * k..off + 4 * k + 4]) == ws[k]
    decreases k
  {
    hide Be, ReadBe;
    Assoc(Be(4, ws[0]), WordBytes(ws[1..]), rest);
    Cut(blob, off, Be(4, ws[0]), WordBytes(ws[1..]) + rest);
    if k == 0 {
      BeAt(blob, off, ws[0], WordBytes(ws[1..]) + rest);
    } else {
      WordAt(blob, off + 4, ws[1..], rest, k - 1);
    }
  }

  lemma {:induction false} EncodeAllWhole(names: seq<Bytes>, ts: seq<Token>)
    ensures |EncodeAll(names, ts)| % 4 == 0
  {
    hide Encode;
    if ts != [] {
      EncodeWhole(names, ts[0]);
      EncodeAllWhole(names, ts[1..]);
    }
  }

  /** Where the blocks of a printed tree lie. */
  function HeaderOf(f: Format, rsv: seq<(nat, nat)>, ts: seq<Token>): Header {
    var rsvLen := |RsvBytes(rsv) + Zeros(16)|;
    var structLen := |EncodeAll(Table(ts), ts) + Tail(f)|;
    Header(40 + rsvLen, 40 + rsvLen + structLen, 40 + rsvLen + structLen, 40 + rsvLen + structLen + |Join(Table(ts))|,
           40)
  }

  predicate Supported(f: Format) {
    f.version >= 17 && f.lastComp <= 17
  }

  predicate FormatFits(f: Format) {
    f.version < 0x1_0000_0000 && f.lastComp < 0x1_0000_0000
  }

  lemma HeaderPrinted(f: Format, rsv: seq<(nat, nat)>, ts: seq<Token>)
    requires |PrintAs(f, rsv, ts)| < 0x1_0000_0000 && FormatFits(f)
    ensures ReadHeader(PrintAs(f, rsv, ts)) ==
            if Supported(f) then Ok(HeaderOf(f, rsv, ts)) else Err(UnsupportedVersion)
    ensures HeaderOk(PrintAs(f, rsv, ts), HeaderOf(f, rsv, ts))
    ensures HeaderOf(f, rsv, ts).stringsEnd == |PrintAs(f, rsv, ts)|
  {
    hide Be, ReadBe, Join, EncodeAll, Table, RsvBytes, Zeros, WordBytes, CheckHeader, HeaderFits, ReadHeader, Tail;
    var blob := PrintAs(f, rsv, ts);
    var rb, sb, names := RsvBytes(rsv) + Zeros(16), EncodeAll(Table(ts), ts) + Tail(f), Join(Table(ts));
    var ws := HeaderWords(f, |rb|, |sb|, |names|);
    assert blob[0..] == blob;
    RsvLength(rsv);
    ZerosLength(16);
    TailLength(f);
    EncodeAllWhole(Table(ts), ts);
    forall k: nat | k < |ws|
      ensures 4 * k + 4 <= |blob| && ReadBe(blob[4 * k..4 * k + 4]) == ws[k]
    {
      WordAt(blob, 0, ws, rb + (sb + names), k);
    }
    WordsRead(blob, ws);
    CheckPrinted(f, |rb|, |sb|, |names|);
  }

  lemma TailLength(f: Format)
    ensures |Tail(f)| % 4 == 0
  {
  }

  lemma CheckPrinted(f: Format, rsvLen: nat, structLen: nat, stringsLen: nat)
    requires rsvLen % 4 == 0 && structLen % 4 == 0
    ensures var len, ws := 40 + rsvLen + structLen + stringsLen, HeaderWords(f, rsvLen, structLen, stringsLen);
            var h := Header(40 + rsvLen, 40 + rsvLen + structLen, 40 + rsvLen + structLen, len, 40);
            && CheckHeader(len, ws[2], ws[3], ws[4], ws[5], ws[6], ws[8], ws[9])
               == (if Supported(f) then Ok(h) else Err(UnsupportedVersion))
            && HeaderFits(len, h)
  {
  }

  lemma ZerosLength(n: nat)
    ensures |Zeros(n)| == n
  {
  }

  lemma WordsRead(blob: Bytes, ws: seq<nat>)
    requires |ws| == 10 && |blob| >= 40
    requires forall k: nat :: k < 10 ==> 4 * k + 4 <= |blob| && ReadBe(blob[4 * k..4 * k + 4]) == ws[k]
    ensures ReadHeader(blob) == CheckHeader(|blob|, ws[2], ws[3], ws[4], ws[5], ws[6], ws[8], ws[9])
  {
    hide ReadBe, CheckHeader;
    assert blob[4 * 2..4 * 2 + 4] == blob[8..12];
    assert blob[4 * 3..4 * 3 + 4] == blob[12..16];
    assert blob[4 * 4..4 * 4 + 4] == blob[16..20];
    assert blob[4 * 5..4 * 5 + 4] == blob[20..24];
    assert blob[4 * 6..4 * 6 + 4] == blob[24..28];
    assert blob[4 * 8..4 * 8 + 4] == blob[32..36];
    assert blob[4 * 9..4 * 9 + 4] == blob[36..40];
  }

  // ---------------------------------------------------------------- the blob

  /** What the tokens and the reservations mean, without any bytes. */
  function Meaning(rsv: seq<(nat, nat)>, ts: seq<Token>): Result<Info, BootError> {
    match RsvList(rsv, [])
    case Err(e) => Err(e)
    case Ok(rs) =>
      match Fold(Starts(rs), ts)
      case Err(e) => Err(e)
      case Ok(w) => if w.info.memory == [] then Err(NoMemory) else Ok(w.info)
  }

  lemma BlobParts(f: Format, rsv: seq<(nat, nat)>, ts: seq<Token>)
    ensures var blob, h := PrintAs(f, rsv, ts), HeaderOf(f, rsv, ts);
            var sb, names := EncodeAll(Table(ts), ts), Join(Table(ts));
            && 40 <= h.offStruct <= h.structEnd <= h.stringsEnd == |blob| && h.structEnd == h.offStrings
            && blob[40..] == RsvBytes(rsv) + (Zeros(16) + ((sb + Tail(f)) + names))
            && blob[h.offStruct..] == sb + (Tail(f) + names)
            && h.offStruct + |sb| + |Tail(f)| == h.structEnd
            && blob[h.offStrings..h.stringsEnd] == names
  {
    hide Be, Join, EncodeAll, Table, RsvBytes, Zeros, WordBytes, Tail;
    var blob, h := PrintAs(f, rsv, ts), HeaderOf(f, rsv, ts);
    var rb, sb, names := RsvBytes(rsv) + Zeros(16), EncodeAll(Table(ts), ts) + Tail(f), Join(Table(ts));
    var head := WordBytes(HeaderWords(f, |rb|, |sb|, |names|));
    assert blob[0..] == blob;
    Cut(blob, 0, head, rb + (sb + names));
    Cut(blob, 40, rb, sb + names);
    Cut(blob, h.offStruct, sb, names);
    Assoc(RsvBytes(rsv), Zeros(16), sb + names);
    Assoc(EncodeAll(Table(ts), ts), Tail(f), names);
    assert blob[h.offStrings..h.stringsEnd] == blob[h.offStrings..];
  }

  /** The verdict on a blob in any format: its version first, then its content, then a missing END. */
  function MeaningAs(f: Format, rsv: seq<(nat, nat)>, ts: seq<Token>): Result<Info, BootError> {
    if !Supported(f) then Err(UnsupportedVersion)
    else if f.terminate || RsvList(rsv, []).Err? || Fold(Starts(RsvList(rsv, []).value), ts).Err? then Meaning(rsv, ts)
    else Err(BadStructure)
  }

  /** Any well-nested tokens: the parser reads from the printed bytes exactly what the tokens mean. */
  lemma PrintedAsIsRead(f: Format, rsv: seq<(nat, nat)>, ts: seq<Token>, end: nat)
    requires |PrintAs(f, rsv, ts)| < 0x1_0000_0000 && FormatFits(f)
    requires Level(ts, 0, end) && (f.terminate ==> end == 0) && CleanNames(ts)
    requires forall i :: 0 <= i < |rsv| ==> IsWord64(rsv[i])
    ensures Parse(PrintAs(f, rsv, ts)) == MeaningAs(f, rsv, ts)
  {
    hide Be, Join, EncodeAll, Table, RsvBytes, Zeros, PrintAs, HeaderOf, Level, CleanNames, Named, ReadRsv, RsvList,
         Fold,
         WalkStruct, ReadHeader, Parse, HeaderOk, Tail;
    var blob, h := PrintAs(f, rsv, ts), HeaderOf(f, rsv, ts);
    ParsedByPath(blob);
    HeaderPrinted(f, rsv, ts);
    if Supported(f) {
      BlobParts(f, rsv, ts);
      OffRsvIs(f, rsv, ts);
      RsvPrinted(blob, 40, rsv, [], (EncodeAll(Table(ts), ts) + Tail(f)) + Join(Table(ts)));
      var rs := RsvList(rsv, []);
      if rs.Ok? {
        TableNames(ts);
        HeaderAligned(blob, h);
        StructPrinted(f, blob, h, h.offStruct, Table(ts), ts, Join(Table(ts)), Starts(rs.value), end);
      }
    }
  }

  lemma PrintedIsRead(rsv: seq<(nat, nat)>, ts: seq<Token>)
    requires |Print(rsv, ts)| < 0x1_0000_0000 && Level(ts, 0, 0) && CleanNames(ts)
    requires forall i :: 0 <= i < |rsv| ==> IsWord64(rsv[i])
    ensures Parse(Print(rsv, ts)) == Meaning(rsv, ts)
  {
    hide PrintAs, Level, CleanNames, Parse, Meaning;
    PrintedAsIsRead(STANDARD, rsv, ts, 0);
  }

  lemma OffRsvIs(f: Format, rsv: seq<(nat, nat)>, ts: seq<Token>)
    ensures HeaderOf(f, rsv, ts).offRsv == 40
  {
  }

  lemma HeaderAligned(blob: Bytes, h: Header)
    requires HeaderOk(blob, h)
    ensures h.offStruct % 4 == 0 && h.offStruct <= |blob|
  {
  }

  // ---------------------------------------------------------------- and back: what is accepted is a token tree

  /** The tokens of a structure block from `off` up to the END token, if the scan gets there. */
  function Tokens(blob: Bytes, h: Header, off: nat, depth: nat): Option<seq<Token>>
    requires HeaderOk(blob, h) && off % 4 == 0
    decreases |blob| - off
  {
    match Scan(blob, h, off, depth)
    case Err(_) => None
    case Ok((t, off')) =>
      if t == Fin then Some([])
      else
        match Tokens(blob, h, off', DepthAfter(depth, t))
        case None => None
        case Some(rest) => Some([t] + rest)
  }

  function DepthAfter(depth: nat, t: Token): nat {
    match t
    case Begin(_) => depth + 1
    case EndNode => if depth > 0 then depth - 1 else 0
    case _ => depth
  }

  /** What the scanner lets through at a given depth. */
  lemma ScanChecks(blob: Bytes, h: Header, off: nat, depth: nat)
    requires HeaderOk(blob, h) && off % 4 == 0 && Scan(blob, h, off, depth).Ok?
    ensures match Scan(blob, h, off, depth).value.0
            case Begin(_) => depth < MAX_DEPTH
            case EndNode => depth > 0
            case Prop(_, _) => depth > 0
            case Nop => true
            case Fin => depth == 0
  {
    hide ReadBe;
  }

  lemma {:induction false} TokensLevel(blob: Bytes, h: Header, off: nat, depth: nat)
    requires HeaderOk(blob, h) && off % 4 == 0
    ensures var ts := Tokens(blob, h, off, depth); ts.Some? ==> Level(ts.value, depth, 0)
    decreases |blob| - off
  {
    hide Scan, HeaderOk;
    if Tokens(blob, h, off, depth).Some? {
      var (t, off') := Scan(blob, h, off, depth).value;
      ScanChecks(blob, h, off, depth);
      ScanMoves(blob, h, off, depth);
      if t != Fin {
        TokensLevel(blob, h, off', DepthAfter(depth, t));
        var rest := Tokens(blob, h, off', DepthAfter(depth, t)).value;
        assert ([t] + rest)[1..] == rest;
      }
    }
  }

  /** Reading while scanning accepts exactly what scanning first and reading the tokens then accepts. */
  lemma {:induction false} WalkIsFold(blob: Bytes, h: Header, off: nat, w: Walker)
    requires HeaderOk(blob, h) && off % 4 == 0
    ensures var r, ts := WalkStruct(blob, h, off, w), Tokens(blob, h, off, |w.path|);
            && (r.Ok? ==> ts.Some?)
            && (ts.Some? ==> r == match Fold(w, ts.value) case Err(e) => Err(e) case Ok(w') => Ok(w'.info))
    decreases |blob| - off
  {
    hide Scan, Walk, HeaderOk;
    if Scan(blob, h, off, |w.path|).Ok? {
      var (t, off') := Scan(blob, h, off, |w.path|).value;
      ScanChecks(blob, h, off, |w.path|);
      ScanMoves(blob, h, off, |w.path|);
      var rest := Tokens(blob, h, off', DepthAfter(|w.path|, t));
      if t != Fin && rest.Some? {
        assert ([t] + rest.value)[0] == t && ([t] + rest.value)[1..] == rest.value;
      }
      if t != Fin && Walk(w, t).Ok? {
        WalkDepth(w, t);
        WalkIsFold(blob, h, off', Walk(w, t).value);
      }
    }
  }

  /** The blob has a sound header and reservation list, and its structure block scans to these tokens. */
  ghost predicate Holding(blob: Bytes, rsv: seq<Region>, ts: seq<Token>) {
    && ReadHeader(blob).Ok?
    && var h := ReadHeader(blob).value;
       ReadRsv(blob, h.offRsv, []) == Ok(rsv) && Tokens(blob, h, h.offStruct, 0) == Some(ts)
  }

  /**
    A blob is accepted if and only if it holds a token sequence whose path-based meaning is a board
    with memory; that meaning is the result.  The tokens are well nested, no deeper than 32 nodes, with
    no property outside a node.
  */
  lemma AcceptedTokens(blob: Bytes, info: Info)
    ensures Parse(blob) == Ok(info) <==>
            exists rsv, ts :: Holding(blob, rsv, ts) && Fold(Starts(rsv), ts).Ok?
                              && Fold(Starts(rsv), ts).value.info == info && info.memory != []
    ensures forall rsv, ts :: Holding(blob, rsv, ts) ==> Level(ts, 0, 0)
  {
    hide ReadRsv, WalkStruct, Fold, Level, Tokens, ReadHeader, HeaderOk, Parse;
    ParsedByPath(blob);
    if ReadHeader(blob).Ok? {
      var h := ReadHeader(blob).value;
      HeaderAligned(blob, h);
      TokensLevel(blob, h, h.offStruct, 0);
      if ReadRsv(blob, h.offRsv, []).Ok? {
        var rsv := ReadRsv(blob, h.offRsv, []).value;
        WalkIsFold(blob, h, h.offStruct, Starts(rsv));
        if Parse(blob) == Ok(info) {
          assert Holding(blob, rsv, Tokens(blob, h, h.offStruct, 0).value);
        }
      }
    }
  }

  // ---------------------------------------------------------------- printing what was read

  function Pairs(rsv: seq<Region>): seq<(nat, nat)> {
    seq(|rsv|, i requires 0 <= i < |rsv| => (rsv[i].base, rsv[i].size))
  }

  lemma {:induction false} RsvAgain(rsv: seq<Region>, acc: seq<Region>)
    requires RegionsOk(acc + rsv, MAX_RSV_REGIONS)
    ensures RsvList(Pairs(rsv), acc) == Ok(acc + rsv)
    decreases |rsv|
  {
    if rsv == [] {
      assert acc + rsv == acc;
    } else {
      assert (acc + rsv)[|acc|] == rsv[0];
      assert acc + rsv == acc + [rsv[0]] + rsv[1..];
      RsvAgain(rsv[1..], acc + [rsv[0]]);
      assert Pairs(rsv)[1..] == Pairs(rsv[1..]);
    }
  }

  lemma ScanClean(blob: Bytes, h: Header, off: nat, depth: nat)
    requires HeaderOk(blob, h) && off % 4 == 0 && Scan(blob, h, off, depth).Ok?
    ensures CleanNames([Scan(blob, h, off, depth).value.0])
  {
    hide ReadBe;
  }

  lemma {:induction false} TokensClean(blob: Bytes, h: Header, off: nat, depth: nat)
    requires HeaderOk(blob, h) && off % 4 == 0
    ensures var ts := Tokens(blob, h, off, depth); ts.Some? ==> CleanNames(ts.value)
    decreases |blob| - off
  {
    hide Scan, HeaderOk, NoNul;
    if Tokens(blob, h, off, depth).Some? {
      var (t, off') := Scan(blob, h, off, depth).value;
      ScanClean(blob, h, off, depth);
      ScanMoves(blob, h, off, depth);
      if t != Fin {
        TokensClean(blob, h, off', DepthAfter(depth, t));
        assert [t][0] == t;
      }
    }
  }

  /**
    Printing what a blob holds, with a fresh layout and a shared names table, changes nothing: the new
    blob is accepted with the same result or refused with the same error.
  */
  lemma ReprintMeansTheSame(blob: Bytes, rsv: seq<Region>, ts: seq<Token>)
    requires Holding(blob, rsv, ts) && |Print(Pairs(rsv), ts)| < 0x1_0000_0000
    ensures Parse(Print(Pairs(rsv), ts)) == Parse(blob)
  {
    hide ReadRsv, WalkStruct, Fold, Level, CleanNames, Tokens, ReadHeader, HeaderOk, Parse, Print, RsvList, Pairs,
         RegionsOk;
    ParsedByPath(blob);
    var h := ReadHeader(blob).value;
    HeaderAligned(blob, h);
    TokensLevel(blob, h, h.offStruct, 0);
    TokensClean(blob, h, h.offStruct, 0);
    WalkIsFold(blob, h, h.offStruct, Starts(rsv));
    NoRegions();
    RsvLimits(blob, h.offRsv, []);
    assert [] + rsv == rsv;
    RsvAgain(rsv, []);
    PairsFit(rsv);
    PrintedIsRead(Pairs(rsv), ts);
  }

  lemma NoRegions()
    ensures RegionsOk([], MAX_RSV_REGIONS)
  {
  }

  lemma PairsFit(rsv: seq<Region>)
    requires RegionsOk(rsv, MAX_RSV_REGIONS)
    ensures forall i :: 0 <= i < |Pairs(rsv)| ==> IsWord64(Pairs(rsv)[i])
  {
  }
}
