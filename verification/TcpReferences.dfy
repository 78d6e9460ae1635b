/** The TCP encoder's loop ends exactly when no reference reachable from the format leads back to itself. */
module TcpReferences {
  import opened Bytes
  import opened Messages
  import opened Sequences
  import opened TcpEncoder

  /** A text whose braces all belong to placeholders, taken apart. */
  datatype Piece = Plain(text: bytes) | Ref(key: bytes)

  predicate IsPiece(p: Piece) {
    match p
    case Plain(text) => LEFT !in text && RIGHT !in text
    case Ref(key) => IsKey(key)
  }

  predicate ArePieces(ps: seq<Piece>) { forall i :: 0 <= i < |ps| ==> IsPiece(ps[i]) }

  function PieceText(p: Piece): bytes {
    match p
    case Plain(text) => text
    case Ref(key) => [LEFT] + key + [RIGHT]
  }

  function Text(ps: seq<Piece>): bytes { if ps == [] then [] else PieceText(ps[0]) + Text(ps[1..]) }

  /** The value map, with every value taken apart. */
  type Definitions = map<bytes, seq<Piece>>

  predicate Defines(defs: Definitions, values: map<bytes, bytes>) {
    && values.Keys == defs.Keys
    && forall key :: key in defs ==> ArePieces(defs[key]) && values[key] == Text(defs[key])
  }

  /** What a placeholder stands for. */
  function Definition(defs: Definitions, key: bytes): seq<Piece> {
    if key in defs then defs[key] else [Plain(UNKNOWN)]
  }

  /** The pieces hold a placeholder of this key. */
  predicate RefersTo(ps: seq<Piece>, key: bytes) { Ref(key) in ps }

  // ----------------------------------------------------------- one turn, in pieces

  lemma {:induction false} TextConcat(a: seq<Piece>, b: seq<Piece>)
    ensures Text(a + b) == Text(a) + Text(b)
  {
    if a == [] {
      assert a + b == b;
    } else {
      assert (a + b)[1..] == a[1..] + b;
      TextConcat(a[1..], b);
      Regroup(PieceText(a[0]), Text(a[1..]), Text(b));
    }
  }

  /** The first reference, or the end. */
  function FirstRef(ps: seq<Piece>): (i: nat)
    ensures i <= |ps| && (i < |ps| ==> ps[i].Ref?) && forall j :: 0 <= j < i ==> ps[j].Plain?
  {
    if ps == [] || ps[0].Ref? then 0 else FirstRef(ps[1..]) + 1
  }

  function Turn(defs: Definitions, ps: seq<Piece>): seq<Piece>
    requires FirstRef(ps) < |ps|
  {
    var i := FirstRef(ps);
    ps[..i] + (Definition(defs, ps[i].key) + ps[i + 1..])
  }

  lemma {:induction false} PlainText(ps: seq<Piece>)
    requires ArePieces(ps) && forall j :: 0 <= j < |ps| ==> ps[j].Plain?
    ensures LEFT !in Text(ps)
  {
    if ps != [] {
      PlainText(ps[1..]);
      assert IsPiece(ps[0]);
    }
  }

  lemma Around(ps: seq<Piece>, i: nat)
    requires i < |ps|
    ensures ps == ps[..i] + ([ps[i]] + ps[i + 1..])
  {
  }

  lemma TextCons(x: Piece, rest: seq<Piece>)
    ensures Text([x] + rest) == PieceText(x) + Text(rest)
  {
    assert ([x] + rest)[1..] == rest;
  }

  lemma TextAround(ps: seq<Piece>, i: nat)
    requires i < |ps|
    ensures Text(ps) == Text(ps[..i]) + PieceText(ps[i]) + Text(ps[i + 1..])
  {
    Around(ps, i);
    TextCons(ps[i], ps[i + 1..]);
    TextConcat(ps[..i], [ps[i]] + ps[i + 1..]);
    Regroup(Text(ps[..i]), PieceText(ps[i]), Text(ps[i + 1..]));
  }

  lemma DefinitionText(defs: Definitions, values: map<bytes, bytes>, key: bytes)
    requires Defines(defs, values)
    ensures ArePieces(Definition(defs, key)) && Text(Definition(defs, key)) == ValueOf(values, key)
  {
    if key !in defs {
      assert LEFT !in UNKNOWN && RIGHT !in UNKNOWN;
      assert [Plain(UNKNOWN)][1..] == [] && UNKNOWN + [] == UNKNOWN;
    }
  }

  lemma PiecesConcat(a: seq<Piece>, b: seq<Piece>)
    ensures ArePieces(a + b) <==> ArePieces(a) && ArePieces(b)
  {
    if ArePieces(a + b) {
      assert forall i :: 0 <= i < |a| ==> a[i] == (a + b)[i];
      assert forall i :: 0 <= i < |b| ==> b[i] == (a + b)[|a| + i];
    }
  }

  lemma TurnPieces(defs: Definitions, values: map<bytes, bytes>, ps: seq<Piece>, i: nat)
    requires Defines(defs, values) && ArePieces(ps) && i == FirstRef(ps) < |ps|
    ensures ArePieces(Turn(defs, ps))
    ensures Text(Turn(defs, ps)) == Text(ps[..i]) + ValueOf(values, ps[i].key) + Text(ps[i + 1..])
  {
    DefinitionText(defs, values, ps[i].key);
    PiecesBetween(ps[..i], Definition(defs, ps[i].key), ps[i + 1..]);
  }

  lemma PiecesBetween(a: seq<Piece>, body: seq<Piece>, b: seq<Piece>)
    requires ArePieces(a) && ArePieces(body) && ArePieces(b)
    ensures ArePieces(a + (body + b)) && Text(a + (body + b)) == Text(a) + Text(body) + Text(b)
  {
    PiecesConcat(body, b);
    PiecesConcat(a, body + b);
    TextConcat(body, b);
    TextConcat(a, body + b);
    Regroup(Text(a), Text(body), Text(b));
  }

  lemma TurnTextRef(defs: Definitions, values: map<bytes, bytes>, ps: seq<Piece>, i: nat)
    requires Defines(defs, values) && ArePieces(ps) && i == FirstRef(ps) < |ps|
    ensures HasPlaceholder(Text(ps))
    ensures Rewrite(Text(ps), values) == Text(ps[..i]) + ValueOf(values, ps[i].key) + Text(ps[i + 1..])
  {
    PlainText(ps[..i]);
    NoBraceNoPlaceholder(Text(ps[..i]));
    assert IsPiece(ps[i]);
    TextAround(ps, i);
    PassHole(Text(ps[..i]), ps[i].key, Text(ps[i + 1..]), values);
  }

  /** The loop's turn on a text is a turn on its pieces; without references there is none. */
  lemma TurnText(defs: Definitions, values: map<bytes, bytes>, ps: seq<Piece>)
    requires Defines(defs, values) && ArePieces(ps)
    ensures HasPlaceholder(Text(ps)) <==> FirstRef(ps) < |ps|
    ensures FirstRef(ps) < |ps| ==> ArePieces(Turn(defs, ps)) && Rewrite(Text(ps), values) == Text(Turn(defs, ps))
  {
    var i := FirstRef(ps);
    if i < |ps| {
      TurnTextRef(defs, values, ps, i);
      TurnPieces(defs, values, ps, i);
    } else {
      PlainText(ps);
      NoBraceNoPlaceholder(Text(ps));
    }
  }

  lemma RefersConcat(a: seq<Piece>, b: seq<Piece>, key: bytes)
    ensures RefersTo(a + b, key) <==> RefersTo(a, key) || RefersTo(b, key)
  {
  }

  // --------------------------------------------------------------------- depth

  /** Every chain of references from these pieces has at most `d` keys. */
  ghost predicate Shallow(defs: Definitions, ps: seq<Piece>, d: nat)
    decreases d
  {
    forall key :: RefersTo(ps, key) ==> d > 0 && Shallow(defs, Definition(defs, key), d - 1)
  }

  lemma {:induction false} ShallowMore(defs: Definitions, ps: seq<Piece>, d: nat, e: nat)
    requires Shallow(defs, ps, d) && d <= e
    ensures Shallow(defs, ps, e)
    decreases d
  {
    forall key | RefersTo(ps, key) ensures e > 0 && Shallow(defs, Definition(defs, key), e - 1) {
      ShallowMore(defs, Definition(defs, key), d - 1, e - 1);
    }
  }

  lemma RefersAround(a: seq<Piece>, x: Piece, b: seq<Piece>, key: bytes)
    ensures RefersTo(a + ([x] + b), key) <==> RefersTo(a, key) || x == Ref(key) || RefersTo(b, key)
  {
    RefersConcat([x], b, key);
    RefersConcat(a, [x] + b, key);
  }

  lemma RefersBetween(a: seq<Piece>, body: seq<Piece>, b: seq<Piece>, key: bytes)
    ensures RefersTo(a + (body + b), key) <==> RefersTo(a, key) || RefersTo(body, key) || RefersTo(b, key)
  {
    RefersConcat(body, b, key);
    RefersConcat(a, body + b, key);
  }

  /** What a turn does to the references: the first one is replaced by those of its definition. */
  lemma TurnRefers(defs: Definitions, ps: seq<Piece>, key: bytes)
    requires FirstRef(ps) < |ps|
    ensures var first := ps[FirstRef(ps)].key;
            && (RefersTo(ps, key) ==> key == first || RefersTo(Turn(defs, ps), key))
            && (RefersTo(Definition(defs, first), key) ==> RefersTo(Turn(defs, ps), key))
            && (RefersTo(Turn(defs, ps), key) ==> RefersTo(ps, key) || RefersTo(Definition(defs, first), key))
  {
    var i := FirstRef(ps);
    Around(ps, i);
    RefersAround(ps[..i], ps[i], ps[i + 1..], key);
    RefersBetween(ps[..i], Definition(defs, ps[i].key), ps[i + 1..], key);
  }

  lemma {:induction false} NoneWithoutRef(ps: seq<Piece>, key: bytes)
    requires FirstRef(ps) == |ps|
    ensures !RefersTo(ps, key)
  {
  }

  // -------------------------------------------------------------- the loop, in pieces

  /** The turns end within `n`. */
  predicate EndsIn(defs: Definitions, ps: seq<Piece>, n: nat)
    decreases n
  {
    FirstRef(ps) == |ps| || (n > 0 && EndsIn(defs, Turn(defs, ps), n - 1))
  }

  predicate LoopEndsIn(s: bytes, values: map<bytes, bytes>, n: nat) { Loop(s, values, n).Some? }

  lemma LoopUnfold(s: bytes, t: bytes, values: map<bytes, bytes>, n: nat)
    requires HasPlaceholder(s) && Rewrite(s, values) == t
    ensures LoopEndsIn(s, values, n) == (n > 0 && LoopEndsIn(t, values, n - 1))
  {
  }

  lemma LoopBase(s: bytes, values: map<bytes, bytes>, n: nat)
    requires !HasPlaceholder(s)
    ensures LoopEndsIn(s, values, n)
  {
  }

  lemma {:induction false} LoopInPieces(defs: Definitions, values: map<bytes, bytes>, ps: seq<Piece>, n: nat)
    requires Defines(defs, values) && ArePieces(ps)
    ensures LoopEndsIn(Text(ps), values, n) == EndsIn(defs, ps, n)
    decreases n
  {
    TurnText(defs, values, ps);
    if FirstRef(ps) == |ps| {
      LoopBase(Text(ps), values, n);
    } else {
      LoopUnfold(Text(ps), Text(Turn(defs, ps)), values, n);
      if n > 0 { LoopInPieces(defs, values, Turn(defs, ps), n - 1); }
    }
  }

  // ------------------------------------------------- the loop ends, so chains are bounded

  lemma {:induction false} EndsShallow(defs: Definitions, ps: seq<Piece>, n: nat) returns (d: nat)
    requires EndsIn(defs, ps, n)
    ensures Shallow(defs, ps, d)
    decreases n
  {
    if FirstRef(ps) == |ps| {
      d := 0;
      forall key ensures !RefersTo(ps, key) { NoneWithoutRef(ps, key); }
    } else {
      var e := EndsShallow(defs, Turn(defs, ps), n - 1);
      d := e + 1;
      BeforeTurn(defs, ps, e);
    }
  }

  lemma BeforeTurn(defs: Definitions, ps: seq<Piece>, e: nat)
    requires FirstRef(ps) < |ps| && Shallow(defs, Turn(defs, ps), e)
    ensures Shallow(defs, ps, e + 1)
  {
    var first := ps[FirstRef(ps)].key;
    forall key | RefersTo(ps, key) ensures Shallow(defs, Definition(defs, key), e) {
      TurnRefers(defs, ps, key);
      if key == first {
        FirstShallow(defs, ps, e);
      } else {
        ShallowMore(defs, Definition(defs, key), e - 1, e);
      }
    }
  }

  lemma FirstShallow(defs: Definitions, ps: seq<Piece>, e: nat)
    requires FirstRef(ps) < |ps| && Shallow(defs, Turn(defs, ps), e)
    ensures Shallow(defs, Definition(defs, ps[FirstRef(ps)].key), e)
  {
    var body := Definition(defs, ps[FirstRef(ps)].key);
    forall key | RefersTo(body, key) ensures e > 0 && Shallow(defs, Definition(defs, key), e - 1) {
      TurnRefers(defs, ps, key);
    }
  }

  // ------------------------------------------------- chains are bounded, so the loop ends

  /** The turns that the pieces need, down to a depth. */
  function Turns(defs: Definitions, ps: seq<Piece>, d: nat): nat
    decreases d, |ps|
  {
    if ps == [] then 0
    else
      (if ps[0].Ref? && d > 0 then 1 + Turns(defs, Definition(defs, ps[0].key), d - 1) else 0) + Turns(defs, ps[1..], d)
  }

  lemma {:induction false} TurnsConcat(defs: Definitions, a: seq<Piece>, b: seq<Piece>, d: nat)
    ensures Turns(defs, a + b, d) == Turns(defs, a, d) + Turns(defs, b, d)
  {
    if a == [] {
      assert a + b == b;
    } else {
      assert (a + b)[1..] == a[1..] + b;
      TurnsConcat(defs, a[1..], b, d);
    }
  }

  /** Below the bound, looking deeper finds no more turns. */
  lemma {:induction false} TurnsStable(defs: Definitions, ps: seq<Piece>, d: nat)
    requires Shallow(defs, ps, d)
    ensures Turns(defs, ps, d + 1) == Turns(defs, ps, d)
    decreases d, |ps|
  {
    if ps != [] {
      ShallowTail(defs, ps, d);
      TurnsStable(defs, ps[1..], d);
      if ps[0].Ref? {
        assert RefersTo(ps, ps[0].key);
        TurnsStable(defs, Definition(defs, ps[0].key), d - 1);
      }
    }
  }

  lemma ShallowTail(defs: Definitions, ps: seq<Piece>, d: nat)
    requires ps != [] && Shallow(defs, ps, d)
    ensures Shallow(defs, ps[1..], d)
  {
    forall key | RefersTo(ps[1..], key) ensures RefersTo(ps, key) {
    }
  }

  lemma {:induction false} PlainTurns(defs: Definitions, ps: seq<Piece>, d: nat)
    requires forall j :: 0 <= j < |ps| ==> ps[j].Plain?
    ensures Turns(defs, ps, d) == 0
  {
    if ps != [] { PlainTurns(defs, ps[1..], d); }
  }

  lemma TurnShallow(defs: Definitions, ps: seq<Piece>, d: nat)
    requires FirstRef(ps) < |ps| && Shallow(defs, ps, d)
    ensures d > 0 && Shallow(defs, Definition(defs, ps[FirstRef(ps)].key), d - 1) && Shallow(defs, Turn(defs, ps), d)
  {
    var body := Definition(defs, ps[FirstRef(ps)].key);
    assert RefersTo(ps, ps[FirstRef(ps)].key);
    ShallowMore(defs, body, d - 1, d);
    forall key | RefersTo(Turn(defs, ps), key) ensures Shallow(defs, Definition(defs, key), d - 1) {
      TurnRefers(defs, ps, key);
    }
  }

  lemma TurnsAround(defs: Definitions, a: seq<Piece>, key: bytes, b: seq<Piece>, d: nat)
    requires d > 0
    ensures Turns(defs, a + ([Ref(key)] + b), d) ==
            Turns(defs, a, d) + 1 + Turns(defs, Definition(defs, key), d - 1) + Turns(defs, b, d)
  {
    TurnsConcat(defs, a, [Ref(key)] + b, d);
    assert ([Ref(key)] + b)[1..] == b;
  }

  lemma TurnsBetween(defs: Definitions, a: seq<Piece>, body: seq<Piece>, b: seq<Piece>, d: nat)
    ensures Turns(defs, a + (body + b), d) == Turns(defs, a, d) + Turns(defs, body, d) + Turns(defs, b, d)
  {
    TurnsConcat(defs, a, body + b, d);
    TurnsConcat(defs, body, b, d);
  }

  /** A turn uses up one. */
  lemma TurnTurns(defs: Definitions, ps: seq<Piece>, d: nat)
    requires FirstRef(ps) < |ps| && Shallow(defs, ps, d)
    ensures Turns(defs, ps, d) == Turns(defs, Turn(defs, ps), d) + 1
  {
    var i := FirstRef(ps);
    TurnShallow(defs, ps, d);
    TurnsStable(defs, Definition(defs, ps[i].key), d - 1);
    Around(ps, i);
    TurnsAround(defs, ps[..i], ps[i].key, ps[i + 1..], d);
    TurnsBetween(defs, ps[..i], Definition(defs, ps[i].key), ps[i + 1..], d);
  }

  lemma {:induction false} ShallowEnds(defs: Definitions, ps: seq<Piece>, d: nat)
    requires Shallow(defs, ps, d)
    ensures EndsIn(defs, ps, Turns(defs, ps, d))
    decreases Turns(defs, ps, d)
  {
    if FirstRef(ps) < |ps| {
      TurnTurns(defs, ps, d);
      TurnShallow(defs, ps, d);
      ShallowEnds(defs, Turn(defs, ps), d);
    }
  }

  // --------------------------------------------------------------------- cycles

  /** A chain of references that starts in the given pieces. */
  predicate IsChain(defs: Definitions, ps: seq<Piece>, chain: seq<bytes>)
    decreases |chain|
  {
    chain != [] ==> RefersTo(ps, chain[0]) && IsChain(defs, Definition(defs, chain[0]), chain[1..])
  }

  /** Some chain meets a key again. */
  ghost predicate Cyclic(defs: Definitions, ps: seq<Piece>) {
    exists chain, i: nat, j: nat :: IsChain(defs, ps, chain) && i < j < |chain| && chain[i] == chain[j]
  }

  /** Along a chain the bound goes down. */
  lemma {:induction false} AlongChain(defs: Definitions, ps: seq<Piece>, chain: seq<bytes>, d: nat, i: nat)
    requires IsChain(defs, ps, chain) && Shallow(defs, ps, d) && i < |chain|
    ensures i < d && Shallow(defs, Definition(defs, chain[i]), d - 1 - i)
    ensures IsChain(defs, Definition(defs, chain[i]), chain[i + 1..])
    decreases i
  {
    if i > 0 {
      AlongChain(defs, Definition(defs, chain[0]), chain[1..], d - 1, i - 1);
      assert chain[1..][i..] == chain[i + 1..];
    }
  }

  /** A key that leads back to itself is not bounded at any depth. */
  lemma {:induction false} LoopNotShallow(defs: Definitions, key: bytes, chain: seq<bytes>, d: nat)
    requires IsChain(defs, Definition(defs, key), chain) && chain != [] && chain[|chain| - 1] == key
    ensures !Shallow(defs, Definition(defs, key), d)
    decreases d
  {
    if Shallow(defs, Definition(defs, key), d) {
      AlongChain(defs, Definition(defs, key), chain, d, |chain| - 1);
      LoopNotShallow(defs, key, chain, d - |chain|);
    }
  }

  lemma {:induction false} ChainPrefix(defs: Definitions, ps: seq<Piece>, chain: seq<bytes>, n: nat)
    requires IsChain(defs, ps, chain) && n <= |chain|
    ensures IsChain(defs, ps, chain[..n])
    decreases n
  {
    if n > 0 {
      ChainPrefix(defs, Definition(defs, chain[0]), chain[1..], n - 1);
      assert chain[..n][1..] == chain[1..][..n - 1];
    }
  }

  lemma CycleNotShallow(defs: Definitions, ps: seq<Piece>, chain: seq<bytes>, i: nat, j: nat, d: nat)
    requires IsChain(defs, ps, chain) && i < j < |chain| && chain[i] == chain[j]
    ensures !Shallow(defs, ps, d)
  {
    if Shallow(defs, ps, d) {
      AlongChain(defs, ps, chain, d, i);
      var back := chain[i + 1..][..j - i];
      ChainPrefix(defs, Definition(defs, chain[i]), chain[i + 1..], j - i);
      assert back[j - i - 1] == chain[j];
      LoopNotShallow(defs, chain[i], back, d - 1 - i);
    }
  }

  /** Pieces that are not bounded by `d` start a chain of more than `d` keys. */
  lemma {:induction false} LongChain(defs: Definitions, ps: seq<Piece>, d: nat) returns (chain: seq<bytes>)
    requires !Shallow(defs, ps, d)
    ensures IsChain(defs, ps, chain) && |chain| == d + 1
    decreases d
  {
    var key :| RefersTo(ps, key) && !(d > 0 && Shallow(defs, Definition(defs, key), d - 1));
    if d == 0 {
      chain := [key];
    } else {
      var tail := LongChain(defs, Definition(defs, key), d - 1);
      chain := [key] + tail;
      assert chain[1..] == tail;
    }
  }

  /** All keys of a chain but the last are defined, for the others refer to nothing. */
  lemma {:induction false} ChainDefined(defs: Definitions, ps: seq<Piece>, chain: seq<bytes>)
    requires IsChain(defs, ps, chain)
    ensures forall i :: 0 <= i < |chain| - 1 ==> chain[i] in defs
    decreases |chain|
  {
    if |chain| > 1 {
      assert RefersTo(Definition(defs, chain[0]), chain[1]);
      ChainDefined(defs, Definition(defs, chain[0]), chain[1..]);
      forall i | 1 <= i < |chain| - 1 ensures chain[i] in defs { assert chain[1..][i - 1] == chain[i]; }
    }
  }

  lemma {:induction false} Pigeonhole(keys: seq<bytes>, holes: set<bytes>) returns (i: nat, j: nat)
    requires |keys| > |holes| && forall k :: 0 <= k < |keys| ==> keys[k] in holes
    ensures i < j < |keys| && keys[i] == keys[j]
    decreases |keys|
  {
    if keys[0] in keys[1..] {
      i := 0;
      var k :| 0 <= k < |keys[1..]| && keys[1..][k] == keys[0];
      j := k + 1;
    } else {
      forall k | 0 <= k < |keys[1..]| ensures keys[1..][k] in holes - {keys[0]} {
        assert keys[k + 1] == keys[1..][k];
      }
      var a, b := Pigeonhole(keys[1..], holes - {keys[0]});
      i, j := a + 1, b + 1;
    }
  }

  /** Without a cycle, no chain is longer than there are keys. */
  lemma AcyclicIsShallow(defs: Definitions, ps: seq<Piece>)
    requires !Cyclic(defs, ps)
    ensures Shallow(defs, ps, |defs.Keys| + 1)
  {
    var d := |defs.Keys| + 1;
    if !Shallow(defs, ps, d) {
      var chain := LongChain(defs, ps, d);
      ChainDefined(defs, ps, chain);
      var i, j := Pigeonhole(chain[..d], defs.Keys);
    }
  }

  /**
   * For every format and value map whose braces all belong to placeholders: the loop
   * ends if and only if no chain of references from the format meets a key again.
   */
  lemma EndsIffAcyclic(defs: Definitions, values: map<bytes, bytes>, ps: seq<Piece>)
    requires Defines(defs, values) && ArePieces(ps)
    ensures Halts(Text(ps), values) <==> !Cyclic(defs, ps)
  {
    if Cyclic(defs, ps) {
      var chain, i: nat, j: nat :| IsChain(defs, ps, chain) && i < j < |chain| && chain[i] == chain[j];
      if n: nat :| Loop(Text(ps), values, n).Some? {
        LoopInPieces(defs, values, ps, n);
        var d := EndsShallow(defs, ps, n);
        CycleNotShallow(defs, ps, chain, i, j, d);
      }
    } else {
      var d := |defs.Keys| + 1;
      AcyclicIsShallow(defs, ps);
      ShallowEnds(defs, ps, d);
      LoopInPieces(defs, values, ps, Turns(defs, ps, d));
    }
  }

  // ------------------------------------------------------------- the shipped formats

  function Pair(literal: string, name: string): seq<Piece> { [Plain(Ascii(literal)), Ref(Ascii(name))] }

  const DELIMITER := [Ref(Ascii("dl"))]

  function FormatPieces(kind: MessageType): seq<Piece> {
    match kind
    case ERR => Pair("ERR FROM ", "DisplayName") + (Pair(" IS ", "MessageContent") + DELIMITER)
    case REPLY => Pair("REPLY ", "Reply") + (Pair(" IS ", "MessageContent") + DELIMITER)
    case AUTH =>
      Pair("AUTH ", "Username") + (Pair(" AS ", "DisplayName") + (Pair(" USING ", "Secret") + DELIMITER))
    case JOIN => Pair("JOIN ", "ChannelID") + (Pair(" AS ", "DisplayName") + DELIMITER)
    case MSG => Pair("MSG FROM ", "DisplayName") + (Pair(" IS ", "MessageContent") + DELIMITER)
    case BYE => Pair("BYE FROM ", "DisplayName") + DELIMITER
    case _ => []
  }

  lemma {:induction false} LettersAreKey(name: string)
    requires Letters(name)
    ensures IsKey(Ascii(name))
  {
  }

  lemma NoRight(literal: string)
    requires Unbraced(literal)
    ensures RIGHT !in Ascii(literal)
  {
    forall b | b in Ascii(literal) ensures b != RIGHT {
      var i :| 0 <= i < |literal| && Ascii(literal)[i] == b;
      assert literal[i] in literal;
    }
  }

  /** A literal and a placeholder in front of pieces whose text is known. */
  lemma PairText(literal: string, name: string, rest: seq<Piece>, text: bytes)
    requires Unbraced(literal) && Letters(name) && ArePieces(rest) && Text(rest) == text
    ensures ArePieces(Pair(literal, name) + rest)
    ensures Text(Pair(literal, name) + rest) == Ascii(literal) + Hole(name) + text
  {
    var pair := Pair(literal, name);
    UnbracedHasNoLeft(literal);
    NoRight(literal);
    LettersAreKey(name);
    PiecesConcat(pair, rest);
    TextConcat(pair, rest);
    assert pair[1..] == [Ref(Ascii(name))] && pair[1..][1..] == [];
    assert Text(pair) == Ascii(literal) + (Hole(name) + []);
    assert Hole(name) + [] == Hole(name);
  }

  lemma DelimiterText()
    ensures ArePieces(DELIMITER) && Text(DELIMITER) == Hole("dl")
  {
    LetterNames();
    LettersAreKey("dl");
    assert DELIMITER[1..] == [] && Hole("dl") + [] == Hole("dl");
  }

  lemma TwoPairs(first: string, name: string, second: string, last: string)
    requires Unbraced(first) && Letters(name) && Unbraced(second) && Letters(last)
    ensures var ps := Pair(first, name) + (Pair(second, last) + DELIMITER);
            ArePieces(ps) && Text(ps) == Ascii(first) + Hole(name) + (Ascii(second) + Hole(last) + Hole("dl"))
  {
    DelimiterText();
    PairText(second, last, DELIMITER, Hole("dl"));
    PairText(first, name, Pair(second, last) + DELIMITER, Ascii(second) + Hole(last) + Hole("dl"));
  }

  lemma FormatText(kind: MessageType)
    requires Format(kind).Some?
    ensures ArePieces(FormatPieces(kind)) && Text(FormatPieces(kind)) == Format(kind).value
  {
    LetterNames();
    UnbracedLiterals();
    match kind
    case ERR => TwoPairs("ERR FROM ", "DisplayName", " IS ", "MessageContent");
    case REPLY => TwoPairs("REPLY ", "Reply", " IS ", "MessageContent");
    case MSG => TwoPairs("MSG FROM ", "DisplayName", " IS ", "MessageContent");
    case JOIN => TwoPairs("JOIN ", "ChannelID", " AS ", "DisplayName");
    case AUTH =>
      TwoPairs(" AS ", "DisplayName", " USING ", "Secret");
      PairText("AUTH ", "Username", Pair(" AS ", "DisplayName") + (Pair(" USING ", "Secret") + DELIMITER),
               Ascii(" AS ") + Hole("DisplayName") + (Ascii(" USING ") + Hole("Secret") + Hole("dl")));
    case BYE =>
      DelimiterText();
      PairText("BYE FROM ", "DisplayName", DELIMITER, Hole("dl"));
  }

  lemma HaltsYields(s: bytes, values: map<bytes, bytes>)
    ensures Halts(s, values) <==> exists result :: Yields(s, values, result)
  {
    if n: nat :| Loop(s, values, n).Some? { assert Yields(s, values, Loop(s, values, n).value); }
  }

  /**
   * `encode` returns for a message if and only if no chain of references that starts in
   * its format meets a key again, when the braces of its fields all belong to
   * placeholders.
   */
  lemma EncodingEnds(m: Message, cfg: Config, defs: Definitions)
    requires Format(m.kind).Some? && Defines(defs, Values(m, cfg))
    ensures (exists line :: Encodes(m, cfg, line)) <==> !Cyclic(defs, FormatPieces(m.kind))
  {
    FormatText(m.kind);
    EndsIffAcyclic(defs, Values(m, cfg), FormatPieces(m.kind));
    HaltsYields(Format(m.kind).value, Values(m, cfg));
    EncodesYields(m, cfg);
  }

  lemma EncodesYields(m: Message, cfg: Config)
    requires Format(m.kind).Some?
    ensures (exists line :: Encodes(m, cfg, line)) <==>
            (exists result :: Yields(Format(m.kind).value, Values(m, cfg), result))
  {
    if line :| Encodes(m, cfg, line) { assert Yields(Format(m.kind).value, Values(m, cfg), line); }
    if result :| Yields(Format(m.kind).value, Values(m, cfg), result) { assert Encodes(m, cfg, result); }
  }
}
