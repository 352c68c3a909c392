/**
  What of a token list matters.  A reading is decided by the relevant properties, in order, and by the
  moments the reserved-memory node is entered; NOPs, other properties and other subtrees are noise.
*/
module FdtNoise {
  import opened Abi
  import opened FdtBytes
  import opened Fdt
  import opened FdtPaths
  import opened FdtRoundTrip

  /** A property name the reader has no use for in a node of this role. */
  predicate Unread(role: Role, name: Bytes) {
    match role
    case RootNode => name != ADDRESS_CELLS && name != SIZE_CELLS
    case ReservedNode => name != ADDRESS_CELLS && name != SIZE_CELLS
    case MemoryNode => name != REG
    case ReservedChild => name != REG
    case ChosenNode => !IsSeed(name)
    case OtherNode => true
  }

  datatype Effect = EnterReserved | Use(role: Role, name: Bytes, value: Bytes)

  function EffectOf(path: seq<Bytes>, t: Token): seq<Effect> {
    match t
    case Begin(name) => if RoleOf(path + [name]) == ReservedNode then [EnterReserved] else []
    case Prop(name, value) => if Unread(RoleOf(path), name) then [] else [Use(RoleOf(path), name, value)]
    case _ => []
  }

  function PathNext(path: seq<Bytes>, t: Token): seq<Bytes> {
    match t
    case Begin(name) => path + [name]
    case EndNode => if path == [] then [] else path[..|path| - 1]
    case _ => path
  }

  /** Everything in the tokens that the reader acts on, from a given path on. */
  function Effects(path: seq<Bytes>, ts: seq<Token>): seq<Effect>
    decreases |ts|
  {
    if ts == [] then [] else EffectOf(path, ts[0]) + Effects(PathNext(path, ts[0]), ts[1..])
  }

  function PathAfter(path: seq<Bytes>, ts: seq<Token>): seq<Bytes>
    decreases |ts|
  {
    if ts == [] then path else PathAfter(PathNext(path, ts[0]), ts[1..])
  }

  /** The root node has the empty name, and no node ends that was not begun. */
  predicate Rooted(path: seq<Bytes>, ts: seq<Token>)
    decreases |ts|
  {
    ts != [] ==>
      && (ts[0].Begin? && path == [] ==> ts[0].name == [])
      && (ts[0].EndNode? ==> path != [])
      && Rooted(PathNext(path, ts[0]), ts[1..])
  }

  // ---------------------------------------------------------------- a reading is its effects

  function Act(w: Walker, e: Effect): Result<Walker, BootError> {
    match e
    case EnterReserved => Ok(w.(rac := w.ac, rsc := w.sc))
    case Use(role, name, value) => PropAs(role, w, name, value)
  }

  function ActAll(w: Walker, es: seq<Effect>): Result<Walker, BootError>
    decreases |es|
  {
    if es == [] then Ok(w)
    else
      match Act(w, es[0])
      case Err(e) => Err(e)
      case Ok(w') => ActAll(w', es[1..])
  }

  /** The same walker somewhere else in the tree. */
  function Moved(r: Result<Walker, BootError>, path: seq<Bytes>): Result<Walker, BootError> {
    match r
    case Err(e) => Err(e)
    case Ok(w) => Ok(w.(path := path))
  }

  lemma ActMoves(w: Walker, e: Effect, path: seq<Bytes>)
    ensures Act(w.(path := path), e) == Moved(Act(w, e), path)
  {
    hide ReadReg, CellCount, AddEntropy, IsSeed;
  }

  lemma UnreadKeeps(role: Role, w: Walker, name: Bytes, value: Bytes)
    requires Unread(role, name)
    ensures PropAs(role, w, name, value) == Ok(w)
  {
    hide ReadReg, CellCount, AddEntropy, IsSeed;
  }

  lemma {:induction false} ActAllMoves(w: Walker, es: seq<Effect>, path: seq<Bytes>)
    ensures ActAll(w.(path := path), es) == Moved(ActAll(w, es), path)
    decreases |es|
  {
    hide Act;
    if es != [] {
      ActMoves(w, es[0], path);
      if Act(w, es[0]).Ok? {
        ActAllMoves(Act(w, es[0]).value, es[1..], path);
      }
    }
  }

  lemma WalkActs(w: Walker, t: Token)
    requires Rooted(w.path, [t])
    ensures Walk(w, t) == Moved(ActAll(w, EffectOf(w.path, t)), PathNext(w.path, t))
  {
    hide PropAs, Unread, RoleOf;
    var es := EffectOf(w.path, t);
    if es != [] {
      assert es[1..] == [];
    }
    if t.Prop? {
      ActMoves(w, Use(RoleOf(w.path), t.name, t.value), w.path);
      if Unread(RoleOf(w.path), t.name) {
        UnreadKeeps(RoleOf(w.path), w, t.name, t.value);
      }
    }
  }

  lemma {:induction false} ActAllAppend(w: Walker, a: seq<Effect>, b: seq<Effect>)
    ensures ActAll(w, a + b) == match ActAll(w, a) case Err(e) => Err(e) case Ok(w') => ActAll(w', b)
    decreases |a|
  {
    hide Act;
    if a == [] {
      assert a + b == b;
    } else {
      assert (a + b)[1..] == a[1..] + b;
      if Act(w, a[0]).Ok? {
        ActAllAppend(Act(w, a[0]).value, a[1..], b);
      }
    }
  }

  /** Reading tokens is carrying out their effects. */
  lemma {:induction false} FoldActs(w: Walker, ts: seq<Token>)
    requires Rooted(w.path, ts)
    ensures Fold(w, ts) == Moved(ActAll(w, Effects(w.path, ts)), PathAfter(w.path, ts))
    decreases |ts|
  {
    hide Walk, EffectOf, PathNext, Act;
    if ts != [] {
      var t, rest := ts[0], ts[1..];
      RootedOne(w.path, ts);
      WalkActs(w, t);
      var es, more, path := EffectOf(w.path, t), Effects(PathNext(w.path, t), rest), PathNext(w.path, t);
      ActAllAppend(w, es, more);
      if ActAll(w, es).Ok? {
        var w1 := ActAll(w, es).value;
        FoldActs(w1.(path := path), rest);
        ActAllMoves(w1, more, path);
      }
    } else {
      assert w.(path := w.path) == w;
    }
  }

  lemma RootedOne(path: seq<Bytes>, ts: seq<Token>)
    requires ts != [] && Rooted(path, ts)
    ensures Rooted(path, [ts[0]])
  {
    hide PathNext;
    assert [ts[0]][1..] == [];
  }

  /**
    Two blobs that hold the same reservations and the same effects are read alike: both accepted with
    the same result, or both refused with the same error.
  */
  lemma OnlyEffectsMatter(blob: Bytes, blob': Bytes, rsv: seq<Region>, ts: seq<Token>, ts': seq<Token>)
    requires Holding(blob, rsv, ts) && Holding(blob', rsv, ts') && Rooted([], ts) && Rooted([], ts')
    requires Effects([], ts) == Effects([], ts')
    ensures Parse(blob) == Parse(blob')
  {
    hide Effects, PathAfter, Rooted, Fold, ActAll, Parse, ParsePaths, Holding;
    HeldIsFold(blob, rsv, ts);
    HeldIsFold(blob', rsv, ts');
    FoldActs(Starts(rsv), ts);
    FoldActs(Starts(rsv), ts');
  }

  /** What a blob with these tokens is parsed to. */
  lemma HeldIsFold(blob: Bytes, rsv: seq<Region>, ts: seq<Token>)
    requires Holding(blob, rsv, ts)
    ensures Parse(blob) == match Fold(Starts(rsv), ts)
                           case Err(e) => Err(e)
                           case Ok(w) => if w.info.memory == [] then Err(NoMemory) else Ok(w.info)
  {
    hide ReadRsv, WalkStruct, Fold, Tokens, ReadHeader, HeaderOk, Parse;
    ParsedByPath(blob);
    var h := ReadHeader(blob).value;
    HeaderAligned(blob, h);
    WalkIsFold(blob, h, h.offStruct, Starts(rsv));
  }

  // ---------------------------------------------------------------- noise

  /** Well-nested tokens without effect that lead back to where they started. */
  ghost predicate Quiet(path: seq<Bytes>, ts: seq<Token>) {
    && path != [] && Rooted(path, ts) && Level(ts, |path|, |path|) && CleanNames(ts)
    && Effects(path, ts) == [] && PathAfter(path, ts) == path
  }

  lemma SingleToken(path: seq<Bytes>, t: Token)
    requires path != [] && !t.Fin? && (t.Begin? ==> |path| < MAX_DEPTH) && (t.Begin? || t.Prop? ==> NoNul(t.name))
    ensures Effects(path, [t]) == EffectOf(path, t) && PathAfter(path, [t]) == PathNext(path, t) && Rooted(path, [t])
    ensures Level([t], |path|, |PathNext(path, t)|) && CleanNames([t])
  {
    hide RoleOf, Unread;
    assert [t][1..] == [];
    assert EffectOf(path, t) + [] == EffectOf(path, t);
  }

  lemma QuietNothing(path: seq<Bytes>)
    requires path != []
    ensures Quiet(path, [])
  {
  }

  lemma QuietNop(path: seq<Bytes>)
    requires path != []
    ensures Quiet(path, [Nop])
  {
    hide Effects, PathAfter, Rooted, Level, CleanNames;
    SingleToken(path, Nop);
  }

  lemma QuietProp(path: seq<Bytes>, name: Bytes, value: Bytes)
    requires path != [] && NoNul(name) && Unread(RoleOf(path), name)
    ensures Quiet(path, [Prop(name, value)])
  {
    hide Effects, PathAfter, Rooted, Level, CleanNames;
    SingleToken(path, Prop(name, value));
  }

  lemma {:induction false} Appended(path: seq<Bytes>, a: seq<Token>, b: seq<Token>)
    ensures Effects(path, a + b) == Effects(path, a) + Effects(PathAfter(path, a), b)
    ensures PathAfter(path, a + b) == PathAfter(PathAfter(path, a), b)
    ensures Rooted(path, a + b) <==> Rooted(path, a) && Rooted(PathAfter(path, a), b)
    decreases |a|
  {
    hide EffectOf, PathNext;
    if a == [] {
      assert a + b == b;
    } else {
      assert (a + b)[1..] == a[1..] + b;
      Appended(PathNext(path, a[0]), a[1..], b);
    }
  }

  lemma QuietTwice(path: seq<Bytes>, a: seq<Token>, b: seq<Token>)
    requires Quiet(path, a) && Quiet(path, b)
    ensures Quiet(path, a + b)
  {
    hide Effects, PathAfter, Rooted, Level, CleanNames;
    Appended(path, a, b);
    LevelAppend(a, b, |path|, |path|, |path|);
    CleanAppend(a, b);
  }

  /** A subtree of noise is noise, unless its own node is the reserved-memory node. */
  lemma QuietNode(path: seq<Bytes>, name: Bytes, inner: seq<Token>)
    requires path != [] && NoNul(name) && |path| < MAX_DEPTH && RoleOf(path + [name]) != ReservedNode
    requires Quiet(path + [name], inner)
    ensures Quiet(path, [Begin(name)] + inner + [EndNode])
  {
    hide RoleOf, MAX_DEPTH;
    var sub := path + [name];
    SingleToken(path, Begin(name));
    SingleToken(sub, EndNode);
    assert sub[..|sub| - 1] == path;
    hide Effects, PathAfter, Rooted, Level, CleanNames;
    Appended(path, [Begin(name)], inner);
    Appended(path, [Begin(name)] + inner, [EndNode]);
    LevelAppend([Begin(name)], inner, |path|, |sub|, |sub|);
    LevelAppend([Begin(name)] + inner, [EndNode], |path|, |sub|, |path|);
    CleanAppend([Begin(name)], inner);
    CleanAppend([Begin(name)] + inner, [EndNode]);
  }

  /** Noise can be put in, or taken out, anywhere. */
  lemma NoiseAnywhere(a: seq<Token>, noise: seq<Token>, b: seq<Token>)
    requires Quiet(PathAfter([], a), noise)
    ensures Effects([], a + noise + b) == Effects([], a + b)
    ensures Rooted([], a + noise + b) <==> Rooted([], a + b)
  {
    hide Effects, PathAfter, Rooted, Level, CleanNames;
    Appended([], a, noise);
    Appended([], a + noise, b);
    Appended([], a, b);
    assert Effects([], a) + [] == Effects([], a);
  }

  // ---------------------------------------------------------------- noise by its names

  /** What the fuzzer scatters over a tree: NOPs, unrelated properties and unrelated subtrees. */
  datatype Junk = Gap | Extra(name: Bytes, value: Bytes) | Subtree(name: Bytes, inner: seq<Junk>)

  function JunkTokens(js: seq<Junk>): seq<Token> {
    if js == [] then [] else PieceTokens(js[0]) + JunkTokens(js[1..])
  }

  function PieceTokens(j: Junk): seq<Token> {
    match j
    case Gap => [Nop]
    case Extra(name, value) => [Prop(name, value)]
    case Subtree(name, inner) => [Begin(name)] + JunkTokens(inner) + [EndNode]
  }

  /** A property name the reader never asks for, whatever the node. */
  predicate Foreign(name: Bytes) {
    name != REG && name != ADDRESS_CELLS && name != SIZE_CELLS && !IsSeed(name)
  }

  /** No name of the reader's own, no NUL in a name, and no more than `room` levels of nodes. */
  predicate Harmless(js: seq<Junk>, room: nat) {
    js != [] ==> HarmlessPiece(js[0], room) && Harmless(js[1..], room)
  }

  predicate HarmlessPiece(j: Junk, room: nat) {
    match j
    case Gap => true
    case Extra(name, _) => NoNul(name) && Foreign(name)
    case Subtree(name, inner) => NoNul(name) && name != RESERVED_MEMORY && room > 0 && Harmless(inner, room - 1)
  }

  lemma ForeignUnread(role: Role, name: Bytes)
    requires Foreign(name)
    ensures Unread(role, name)
  {
  }

  lemma OrdinaryNode(path: seq<Bytes>, name: Bytes)
    requires name != RESERVED_MEMORY && path != []
    ensures RoleOf(path + [name]) != ReservedNode
  {
    assert (path + [name])[|path|] == name;
  }

  /** Junk is noise wherever it fits. */
  lemma {:induction false} JunkIsQuiet(path: seq<Bytes>, js: seq<Junk>, room: nat)
    requires path != [] && |path| + room <= MAX_DEPTH && Harmless(js, room)
    ensures Quiet(path, JunkTokens(js))
    decreases js
  {
    hide Quiet;
    if js == [] {
      QuietNothing(path);
    } else {
      PieceIsQuiet(path, js[0], room);
      JunkIsQuiet(path, js[1..], room);
      QuietTwice(path, PieceTokens(js[0]), JunkTokens(js[1..]));
    }
  }

  lemma {:induction false} PieceIsQuiet(path: seq<Bytes>, j: Junk, room: nat)
    requires path != [] && |path| + room <= MAX_DEPTH && HarmlessPiece(j, room)
    ensures Quiet(path, PieceTokens(j))
    decreases j
  {
    hide Quiet, Foreign, Unread, RoleOf;
    match j
    case Gap => QuietNop(path);
    case Extra(name, value) =>
      ForeignUnread(RoleOf(path), name);
      QuietProp(path, name, value);
    case Subtree(name, inner) =>
      OrdinaryNode(path, name);
      JunkIsQuiet(path + [name], inner, room - 1);
      QuietNode(path, name, JunkTokens(inner));
  }
}
