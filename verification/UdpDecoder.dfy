/**
 * The UDP decoder: a scanner whose guards save fields into `controls` on the way,
 * and the language it accepts.
 */
module UdpDecoder {
  import opened Bytes
  import opened Messages

  /**
   * The scanner's states, named by message type. `Within(MSG, 0)` is MSG_DISPNAME,
   * `AfterZero(MSG, 0)` is MSG_ZERO, `Within(MSG, 1)` is MSG_CONTENT, and so on for
   * each string field of each type.
   */
  datatype Scan =
    | Init
    | Start(kind: MessageType)
    | Id1(kind: MessageType)
    | Id2(kind: MessageType)
    | Result | RefId1 | RefId2
    | Within(kind: MessageType, k: nat)
    | AfterZero(kind: MessageType, k: nat)
    | End

  datatype Controls = Controls(
    messageId: uint16, replyId: uint16, status: byte,
    dispName: bytes, channelId: bytes, content: bytes, secret: bytes, username: bytes)

  const FRESH := Controls(0, 0, 0, [], [], [], [], [])

  datatype Class = PrintBytes | TokenBytes

  predicate Allows(class_: Class, b: byte) {
    match class_
    case PrintBytes => IsPrint(b)
    case TokenBytes => IsAlnum(b) || b == '_' as int || b == '-' as int || b == '.' as int
  }

  /** The string in `controls` that a saving guard writes. */
  datatype Slot = DispName | Content | Secret

  function Store(slot: Slot, c: Controls, s: bytes): Controls {
    match slot
    case DispName => c.(dispName := s)
    case Content => c.(content := s)
    case Secret => c.(secret := s)
  }

  /** A string field: the guard on its first byte, the one on the rest, and where it is saved. */
  datatype FieldSpec = FieldSpec(first: Class, rest: Class, slot: Slot)

  const NAME_FIELD := FieldSpec(PrintBytes, PrintBytes, DispName)
  const CONTENT_FIELD := FieldSpec(PrintBytes, PrintBytes, Content)

  /** `saveChannel` writes the display name and `saveUsername` the secret, as the lambdas do. */
  const CHANNEL_FIELD := FieldSpec(TokenBytes, TokenBytes, DispName)
  const SECRET_FIELD := FieldSpec(PrintBytes, TokenBytes, Secret)

  function Fields(kind: MessageType): seq<FieldSpec> {
    match kind
    case REPLY => [CONTENT_FIELD]
    case MSG => [NAME_FIELD, CONTENT_FIELD]
    case ERR => [NAME_FIELD, CONTENT_FIELD]
    case BYE => [NAME_FIELD]
    case JOIN => [CHANNEL_FIELD, NAME_FIELD]
    case AUTH => [SECRET_FIELD, NAME_FIELD, SECRET_FIELD]
    case _ => []
  }

  /** The field that the edge out of a state enters, if that is what its edge does. */
  function Ready(st: Scan): Option<(MessageType, nat)> {
    match st
    case Id2(kind) => if kind == REPLY then None else Some((kind, 0))
    case RefId2 => Some((REPLY, 0))
    case AfterZero(kind, k) => Some((kind, k + 1))
    case _ => None
  }

  function TypeOf(b: byte): Option<MessageType> {
    if b == CONFIRM.Code() then Some(CONFIRM)
    else if b == REPLY.Code() then Some(REPLY)
    else if b == MSG.Code() then Some(MSG)
    else if b == PING.Code() then Some(PING)
    else if b == ERR.Code() then Some(ERR)
    else if b == BYE.Code() then Some(BYE)
    else if b == JOIN.Code() then Some(JOIN)
    else if b == AUTH.Code() then Some(AUTH)
    else None
  }

  /** `std::string(c)`: everything up to the first zero byte. */
  function CString(d: bytes, i: nat): bytes
    requires i <= |d|
    decreases |d| - i
  {
    if i == |d| || d[i] == 0 then [] else [d[i]] + CString(d, i + 1)
  }

  /** Enter field `k`, saving the whole string when its first byte is allowed. */
  function Enter(kind: MessageType, k: nat, d: bytes, i: nat, c: Controls): Option<(Scan, Controls)>
    requires i < |d|
  {
    if k < |Fields(kind)| && Allows(Fields(kind)[k].first, d[i]) then
      Some((Within(kind, k), Store(Fields(kind)[k].slot, c, CString(d, i))))
    else None
  }

  /** The edge taken on byte `i`, with what its guard saves. */
  function Step(st: Scan, d: bytes, i: nat, c: Controls): Option<(Scan, Controls)>
    requires i < |d| && (st != Init ==> i > 0)
  {
    match st
    case Init => (match TypeOf(d[i]) { case Some(kind) => Some((Start(kind), c)) case None => None })
    case Start(kind) => Some((Id1(kind), c))
    case Id1(kind) => Some((Id2(kind), c.(messageId := Word(d[i - 1], d[i]))))
    case Id2(kind) =>
      if kind != REPLY then Enter(kind, 0, d, i, c)
      else if d[i] == 0 || d[i] == 1 then Some((Result, c.(status := d[i])))
      else None
    case Result => Some((RefId1, c))
    case RefId1 => Some((RefId2, c.(replyId := Word(d[i - 1], d[i]))))
    case RefId2 => Enter(REPLY, 0, d, i, c)
    case Within(kind, k) =>
      if k < |Fields(kind)| && Allows(Fields(kind)[k].rest, d[i]) then Some((st, c))
      else if d[i] == 0 then Some((AfterZero(kind, k), c))
      else None
    case AfterZero(kind, k) => Enter(kind, k + 1, d, i, c)
    case End => None
  }

  /** Where the scanner halts on `d[i..]`, and the fields saved by then. */
  function Walk(st: Scan, d: bytes, i: nat, c: Controls): (Scan, Controls)
    requires i <= |d| && (st != Init ==> i > 0)
    decreases |d| - i
  {
    if i == |d| then (st, c)
    else
      match Step(st, d, i, c)
      case None => (st, c)
      case Some((next, saved)) => Walk(next, d, i + 1, saved)
  }

  /** The message type of a terminal state. */
  function Terminal(st: Scan): Option<MessageType> {
    match st
    case Id2(kind) => if kind == CONFIRM || kind == PING then Some(kind) else None
    case AfterZero(kind, k) => if k + 1 == |Fields(kind)| then Some(kind) else None
    case _ => None
  }

  /** The setter calls of `translate` for each type; the first that throws ends them. */
  function Fill(kind: MessageType, c: Controls): Messages.Result<Message> {
    var m := New(NONE, []).(id := c.messageId, kind := kind);
    match kind
    case REPLY => m.(isOk := c.status == 1, refId := c.replyId).SetText(c.content)
    case MSG => AuthorThenText(m, c.dispName, c.content)
    case ERR => AuthorThenText(m, c.dispName, c.content)
    case BYE => m.SetAuthor(c.dispName)
    case JOIN => TextThenAuthor(m, c.channelId, c.dispName)
    case AUTH => AuthorThenText(m, c.username, c.secret)
    case _ => Ok(m)
  }

  function AuthorThenText(m: Message, author: bytes, text: bytes): Messages.Result<Message> {
    match m.SetAuthor(author)
    case Ok(n) => n.SetText(text)
    case thrown => thrown
  }

  function TextThenAuthor(m: Message, text: bytes, author: bytes): Messages.Result<Message> {
    match m.SetText(text)
    case Ok(n) => n.SetAuthor(author)
    case thrown => thrown
  }

  const MALFORMED := Ascii("Malformed message incoming from server!")

  /** What the `catch` block makes of a half-filled message. */
  function Malformed(m: Message): Message { m.(kind := ERR_INTERNAL, text := MALFORMED) }

  /** The message for a halting state, and the controls left for the next datagram. */
  function Translate(st: Scan, c: Controls): (Message, Controls) {
    match Terminal(st)
    case None => (Malformed(New(NONE, [])), c)
    case Some(kind) =>
      match Fill(kind, c)
      case Ok(m) => (m, FRESH)
      case Thrown(m) => (Malformed(m), c)
  }

  /** Decoding with whatever an earlier datagram left in `controls`. */
  function DecodeWith(c: Controls, d: Datagram): (Message, Controls) {
    var (st, saved) := Walk(Init, d, 0, c);
    Translate(st, saved)
  }

  /** Decoding with a decoder that has just been built. */
  function Decode(d: Datagram): Message { DecodeWith(FRESH, d).0 }

  // ------------------------------------------------------------------ the grammar

  /** A packet: only REPLY has a result and a reference ID. */
  datatype Packet = Packet(kind: MessageType, id: uint16, ok: bool, refId: uint16, fields: seq<bytes>)

  /** Non-empty, with bytes that the field's two guards let through. */
  predicate IsField(spec: FieldSpec, s: bytes) {
    s != [] && Allows(spec.first, s[0]) && forall j :: 1 <= j < |s| ==> Allows(spec.rest, s[j])
  }

  predicate AreFields(kind: MessageType, k: nat, fields: seq<bytes>)
    requires k + |fields| <= |Fields(kind)|
  {
    forall j :: 0 <= j < |fields| ==> IsField(Fields(kind)[k + j], fields[j])
  }

  predicate WellFormed(p: Packet) {
    && TypeOf(p.kind.Code()) == Some(p.kind)
    && (p.kind != REPLY ==> !p.ok && p.refId == 0)
    && |p.fields| == |Fields(p.kind)| && AreFields(p.kind, 0, p.fields)
  }

  function ZeroTerminated(fields: seq<bytes>): bytes {
    if fields == [] then [] else fields[0] + [0] + ZeroTerminated(fields[1..])
  }

  function Reference(p: Packet): bytes {
    if p.kind == REPLY then [if p.ok then 1 else 0] + Octets(p.refId) else []
  }

  /** The packet in network byte order. */
  function Serialise(p: Packet): bytes {
    [p.kind.Code()] + Octets(p.id) + (Reference(p) + ZeroTerminated(p.fields))
  }

  /** The fields that a packet leaves in `controls`, later ones overwriting earlier ones. */
  function StoreAll(kind: MessageType, k: nat, c: Controls, fields: seq<bytes>): Controls
    requires k + |fields| <= |Fields(kind)|
    decreases |fields|
  {
    if fields == [] then c
    else StoreAll(kind, k + 1, Store(Fields(kind)[k].slot, c, fields[0]), fields[1..])
  }

  function Saved(p: Packet, c: Controls): Controls
    requires |p.fields| == |Fields(p.kind)|
  {
    var c1 := c.(messageId := p.id);
    var c2 := if p.kind == REPLY then c1.(status := if p.ok then 1 else 0, replyId := p.refId) else c1;
    StoreAll(p.kind, 0, c2, p.fields)
  }

  /** The state a packet ends in. */
  function FinalState(p: Packet): Scan {
    if p.fields == [] then Id2(p.kind) else AfterZero(p.kind, |p.fields| - 1)
  }

  /** The author and text the message gets. JOIN loses its channel, AUTH its user and display names. */
  function AuthorOf(p: Packet): bytes
    requires |p.fields| == |Fields(p.kind)|
  {
    match p.kind
    case MSG => p.fields[0]
    case ERR => p.fields[0]
    case BYE => p.fields[0]
    case JOIN => p.fields[1]
    case _ => []
  }

  function TextOf(p: Packet): bytes
    requires |p.fields| == |Fields(p.kind)|
  {
    match p.kind
    case MSG => p.fields[1]
    case ERR => p.fields[1]
    case REPLY => p.fields[0]
    case AUTH => p.fields[2]
    case _ => []
  }

  /** The length limits of the setters. */
  predicate Fits(p: Packet)
    requires |p.fields| == |Fields(p.kind)|
  {
    |AuthorOf(p)| <= MAX_AUTHOR && |TextOf(p)| <= MAX_TEXT
  }

  function Meaning(p: Packet): Message
    requires |p.fields| == |Fields(p.kind)|
  {
    Message(p.kind, TextOf(p), AuthorOf(p), p.ok, p.id, p.refId)
  }

  /** An over-long author stops the filling before the text; either way the message is malformed. */
  function Outcome(p: Packet): Message
    requires |p.fields| == |Fields(p.kind)|
  {
    if Fits(p) then Meaning(p)
    else Malformed(Meaning(p).(author := if |AuthorOf(p)| <= MAX_AUTHOR then AuthorOf(p) else []))
  }

  // ------------------------------------------------- the scanner and the grammar

  /** The bytes `s` stand in `d` at `i`. */
  predicate At(d: bytes, i: nat, s: bytes) { i + |s| <= |d| && d[i..i + |s|] == s }

  lemma SplitAt(d: bytes, i: nat, a: bytes, b: bytes)
    requires At(d, i, a + b)
    ensures At(d, i, a) && At(d, i + |a|, b)
  {
    assert d[i..i + |a|] == (a + b)[..|a|] == a;
    assert d[i + |a|..i + |a| + |b|] == (a + b)[|a|..] == b;
  }

  lemma JoinAt(d: bytes, i: nat, a: bytes, b: bytes)
    requires At(d, i, a) && At(d, i + |a|, b)
    ensures At(d, i, a + b)
  {
    assert d[i..i + |a| + |b|] == a + b;
  }

  lemma {:induction false} CStringIs(d: bytes, i: nat, s: bytes)
    requires At(d, i, s + [0]) && forall k :: 0 <= k < |s| ==> s[k] != 0
    ensures CString(d, i) == s
    decreases |s|
  {
    assert d[i..i + |s| + 1] == s + [0];
    if s != [] {
      assert d[i] == s[0];
      assert d[i + 1..i + |s| + 1] == s[1..] + [0];
      CStringIs(d, i + 1, s[1..]);
    }
  }

  lemma FieldAt(d: bytes, i: nat, s: bytes)
    requires At(d, i, s + [0])
    ensures d[i + |s|] == 0
    ensures forall k :: i <= k < i + |s| ==> d[k] == s[k - i]
  {
    forall k | i <= k < i + |s| ensures d[k] == s[k - i] {
      assert d[k] == d[i..i + |s| + 1][k - i];
    }
    assert d[i + |s|] == d[i..i + |s| + 1][|s|];
  }

  /** Inside a field the scanner runs over every allowed byte and leaves on the zero. */
  lemma {:induction false} RunField(kind: MessageType, k: nat, d: bytes, i: nat, j: nat, c: Controls)
    requires k < |Fields(kind)| && 0 < i <= j < |d| && d[j] == 0
    requires forall n :: i <= n < j ==> Allows(Fields(kind)[k].rest, d[n])
    ensures Walk(Within(kind, k), d, i, c) == Walk(AfterZero(kind, k), d, j + 1, c)
    decreases j - i
  {
    if i < j { RunField(kind, k, d, i + 1, j, c); }
  }

  /** A complete field takes the scanner from before it to after its zero byte, and is saved whole. */
  lemma PassField(st: Scan, kind: MessageType, k: nat, d: bytes, i: nat, s: bytes, c: Controls)
    requires Ready(st) == Some((kind, k)) && k < |Fields(kind)| && i > 0
    requires IsField(Fields(kind)[k], s) && At(d, i, s + [0])
    ensures Walk(st, d, i, c) ==
            Walk(AfterZero(kind, k), d, i + |s| + 1, Store(Fields(kind)[k].slot, c, s))
  {
    FieldAt(d, i, s);
    CStringIs(d, i, s);
    var saved := Store(Fields(kind)[k].slot, c, s);
    assert d[i] == s[0];
    assert Step(st, d, i, c) == Some((Within(kind, k), saved));
    RunField(kind, k, d, i + 1, i + |s|, saved);
  }

  /** Either the scanner sticks inside the field, or the field is complete at `j`. */
  lemma {:induction false} FindEnd(kind: MessageType, k: nat, d: bytes, i: nat, c: Controls) returns (j: nat)
    requires k < |Fields(kind)| && 0 < i <= |d|
    ensures i <= j <= |d| && forall n :: i <= n < j ==> Allows(Fields(kind)[k].rest, d[n])
    ensures (j < |d| && d[j] == 0) || Walk(Within(kind, k), d, i, c).0 == Within(kind, k)
    decreases |d| - i
  {
    if i < |d| && Allows(Fields(kind)[k].rest, d[i]) {
      j := FindEnd(kind, k, d, i + 1, c);
    } else {
      j := i;
    }
  }

  /** The converse of `PassField`: a scan that gets past a field has read one. */
  lemma ScanField(st: Scan, kind: MessageType, k: nat, d: bytes, i: nat, c: Controls) returns (s: bytes)
    requires Ready(st) == Some((kind, k)) && Terminal(st).None? && 0 < i <= |d|
    requires Terminal(Walk(st, d, i, c).0).Some?
    ensures k < |Fields(kind)| && IsField(Fields(kind)[k], s) && At(d, i, s + [0])
  {
    assert i < |d| && k < |Fields(kind)| && Allows(Fields(kind)[k].first, d[i]);
    var j := FindEnd(kind, k, d, i + 1, Store(Fields(kind)[k].slot, c, CString(d, i)));
    s := d[i..j];
    assert forall n :: 1 <= n < |s| ==> s[n] == d[i + n];
    assert d[i..j + 1] == s + [0];
  }

  lemma StopsWhenDone(st: Scan, kind: MessageType, d: bytes, i: nat, c: Controls)
    requires Ready(st) == Some((kind, |Fields(kind)|)) && 0 < i <= |d|
    ensures Walk(st, d, i, c) == (st, c)
  {
  }

  lemma RemainingFields(kind: MessageType, k: nat, fields: seq<bytes>)
    requires fields != [] && k + |fields| <= |Fields(kind)| && AreFields(kind, k, fields)
    ensures IsField(Fields(kind)[k], fields[0]) && AreFields(kind, k + 1, fields[1..])
  {
    assert IsField(Fields(kind)[k + 0], fields[0]);
    forall j | 0 <= j < |fields[1..]| ensures IsField(Fields(kind)[k + 1 + j], fields[1..][j]) {
      assert IsField(Fields(kind)[k + (j + 1)], fields[j + 1]);
    }
  }

  lemma FieldsCons(kind: MessageType, k: nat, s: bytes, rest: seq<bytes>)
    requires k + 1 + |rest| <= |Fields(kind)| && IsField(Fields(kind)[k], s) && AreFields(kind, k + 1, rest)
    ensures AreFields(kind, k, [s] + rest)
  {
    forall j | 0 <= j < |rest| + 1 ensures IsField(Fields(kind)[k + j], ([s] + rest)[j]) {
      if j > 0 { assert IsField(Fields(kind)[k + 1 + (j - 1)], rest[j - 1]); }
    }
  }

  /** Where the scanner is once all fields of a packet have been read. */
  function FieldsEnd(st: Scan, kind: MessageType, n: nat): Scan
    requires n <= |Fields(kind)|
  {
    if n == 0 then st else AfterZero(kind, |Fields(kind)| - 1)
  }

  lemma NextField(st: Scan, kind: MessageType, k: nat, d: bytes, i: nat, fields: seq<bytes>, c: Controls)
    requires Ready(st) == Some((kind, k)) && fields != [] && k + |fields| <= |Fields(kind)| && 0 < i <= |d|
    requires AreFields(kind, k, fields) && At(d, i, ZeroTerminated(fields))
    ensures Ready(AfterZero(kind, k)) == Some((kind, k + 1)) && i + |fields[0]| + 1 <= |d|
    ensures AreFields(kind, k + 1, fields[1..]) && At(d, i + |fields[0]| + 1, ZeroTerminated(fields[1..]))
    ensures Walk(st, d, i, c) ==
            Walk(AfterZero(kind, k), d, i + |fields[0]| + 1, Store(Fields(kind)[k].slot, c, fields[0]))
  {
    RemainingFields(kind, k, fields);
    SplitAt(d, i, fields[0] + [0], ZeroTerminated(fields[1..]));
    PassField(st, kind, k, d, i, fields[0], c);
  }

  /** All remaining fields of a packet, one after the other. */
  lemma {:induction false} PassFields(st: Scan, kind: MessageType, k: nat, d: bytes, i: nat, fields: seq<bytes>,
      c: Controls)
    requires Ready(st) == Some((kind, k)) && k + |fields| == |Fields(kind)| && 0 < i <= |d|
    requires AreFields(kind, k, fields) && At(d, i, ZeroTerminated(fields))
    ensures Walk(st, d, i, c) == (FieldsEnd(st, kind, |fields|), StoreAll(kind, k, c, fields))
    decreases |fields|
  {
    if fields == [] {
      StopsWhenDone(st, kind, d, i, c);
    } else {
      NextField(st, kind, k, d, i, fields, c);
      PassFields(AfterZero(kind, k), kind, k + 1, d, i + |fields[0]| + 1, fields[1..],
                 Store(Fields(kind)[k].slot, c, fields[0]));
    }
  }

  lemma {:induction false} ScanFields(st: Scan, kind: MessageType, k: nat, d: bytes, i: nat, c: Controls)
    returns (fields: seq<bytes>)
    requires Ready(st) == Some((kind, k)) && k <= |Fields(kind)| && 0 < i <= |d|
    requires Terminal(st).None? || k == |Fields(kind)|
    requires Terminal(Walk(st, d, i, c).0).Some?
    ensures k + |fields| == |Fields(kind)| && AreFields(kind, k, fields) && At(d, i, ZeroTerminated(fields))
    decreases |Fields(kind)| - k
  {
    if k == |Fields(kind)| {
      fields := [];
    } else {
      var s := ScanField(st, kind, k, d, i, c);
      PassField(st, kind, k, d, i, s, c);
      var rest := ScanFields(AfterZero(kind, k), kind, k + 1, d, i + |s| + 1, Store(Fields(kind)[k].slot, c, s));
      fields := [s] + rest;
      assert fields[1..] == rest;
      JoinAt(d, i, s + [0], ZeroTerminated(rest));
      FieldsCons(kind, k, s, rest);
    }
  }

  /** The type byte and the ID. */
  lemma ScanHeader(d: bytes, c: Controls)
    requires |d| >= 3 && TypeOf(d[0]).Some?
    ensures Walk(Init, d, 0, c) == Walk(Id2(TypeOf(d[0]).value), d, 3, c.(messageId := Word(d[1], d[2])))
  {
    var kind := TypeOf(d[0]).value;
    assert Walk(Init, d, 0, c) == Walk(Start(kind), d, 1, c);
    assert Walk(Start(kind), d, 1, c) == Walk(Id1(kind), d, 2, c);
  }

  /** The result byte and the reference ID of a REPLY. */
  lemma ScanReference(d: bytes, c: Controls)
    requires |d| >= 6 && (d[3] == 0 || d[3] == 1)
    ensures Walk(Id2(REPLY), d, 3, c) == Walk(RefId2, d, 6, c.(status := d[3], replyId := Word(d[4], d[5])))
  {
    var c1 := c.(status := d[3]);
    assert Walk(Id2(REPLY), d, 3, c) == Walk(Result, d, 4, c1);
    assert Walk(Result, d, 4, c1) == Walk(RefId1, d, 5, c1);
  }

  /** A scan that reaches a terminal state has read a header, and a reference if it is a REPLY. */
  lemma TerminalHasHeader(d: bytes, c: Controls)
    requires Terminal(Walk(Init, d, 0, c).0).Some?
    ensures |d| >= 3 && TypeOf(d[0]).Some?
  {
    if |d| > 0 && TypeOf(d[0]).Some? {
      var kind := TypeOf(d[0]).value;
      assert Walk(Init, d, 0, c) == Walk(Start(kind), d, 1, c);
      if |d| > 1 {
        assert Walk(Start(kind), d, 1, c) == Walk(Id1(kind), d, 2, c);
      }
    }
  }

  lemma TerminalHasReference(d: bytes, c: Controls)
    requires |d| >= 3 && Terminal(Walk(Id2(REPLY), d, 3, c).0).Some?
    ensures |d| >= 6 && (d[3] == 0 || d[3] == 1)
  {
    if |d| > 3 && (d[3] == 0 || d[3] == 1) {
      var c1 := c.(status := d[3]);
      assert Walk(Id2(REPLY), d, 3, c) == Walk(Result, d, 4, c1);
      if |d| > 4 {
        assert Walk(Result, d, 4, c1) == Walk(RefId1, d, 5, c1);
      }
    }
  }

  function Body(p: Packet): bytes { Reference(p) + ZeroTerminated(p.fields) }

  lemma PrefixParts(d: bytes, p: Packet)
    requires Serialise(p) <= d
    ensures |d| >= 3 && d[0] == p.kind.Code() && [d[1], d[2]] == Octets(p.id) && At(d, 3, Body(p))
  {
    var s := Serialise(p);
    assert d[0] == s[0] && d[1] == s[1] && d[2] == s[2];
    assert d[3..3 + |Body(p)|] == s[3..] == Body(p);
  }

  lemma PartsPrefix(d: bytes, p: Packet)
    requires |d| >= 3 && d[0] == p.kind.Code() && [d[1], d[2]] == Octets(p.id) && At(d, 3, Body(p))
    ensures Serialise(p) <= d
  {
    assert d[..3] == [p.kind.Code()] + Octets(p.id);
    assert d[..3 + |Body(p)|] == d[..3] + d[3..3 + |Body(p)|];
  }

  lemma ReferenceBytes(d: bytes, p: Packet)
    requires p.kind == REPLY && At(d, 3, Reference(p))
    ensures |d| >= 6 && d[3] == (if p.ok then 1 else 0) && Word(d[4], d[5]) == p.refId
  {
    var r := Reference(p);
    assert d[3..6] == r;
    assert d[3] == r[0] && d[4] == r[1] && d[5] == r[2];
    WordParts(High(p.refId), Low(p.refId));
  }

  lemma AcceptsReply(d: bytes, p: Packet, c: Controls)
    requires WellFormed(p) && p.kind == REPLY
    requires At(d, 3, Reference(p)) && At(d, 6, ZeroTerminated(p.fields))
    ensures Walk(Id2(REPLY), d, 3, c) ==
            (FinalState(p), StoreAll(REPLY, 0, c.(status := if p.ok then 1 else 0, replyId := p.refId), p.fields))
  {
    ReferenceBytes(d, p);
    ScanReference(d, c);
    PassFields(RefId2, REPLY, 0, d, 6, p.fields, c.(status := d[3], replyId := p.refId));
  }

  /** Every packet of the grammar leads to its terminal state, whatever follows it. */
  lemma Accepts(d: bytes, p: Packet, c: Controls)
    requires WellFormed(p) && Serialise(p) <= d
    ensures Walk(Init, d, 0, c) == (FinalState(p), Saved(p, c))
  {
    PrefixParts(d, p);
    ScanHeader(d, c);
    WordParts(High(p.id), Low(p.id));
    assert Word(d[1], d[2]) == p.id;
    var c1 := c.(messageId := p.id);
    SplitAt(d, 3, Reference(p), ZeroTerminated(p.fields));
    if p.kind == REPLY {
      AcceptsReply(d, p, c1);
    } else {
      PassFields(Id2(p.kind), p.kind, 0, d, 3, p.fields, c1);
    }
  }

  lemma RecognisesReply(d: bytes, c: Controls) returns (p: Packet)
    requires |d| >= 3 && d[0] == REPLY.Code() && Terminal(Walk(Id2(REPLY), d, 3, c).0).Some?
    ensures WellFormed(p) && Serialise(p) <= d
  {
    TerminalHasReference(d, c);
    ScanReference(d, c);
    WordParts(d[1], d[2]);
    WordParts(d[4], d[5]);
    var refId := Word(d[4], d[5]);
    var fields := ScanFields(RefId2, REPLY, 0, d, 6, c.(status := d[3], replyId := refId));
    p := Packet(REPLY, Word(d[1], d[2]), d[3] == 1, refId, fields);
    assert d[3..6] == Reference(p);
    JoinAt(d, 3, Reference(p), ZeroTerminated(fields));
    PartsPrefix(d, p);
  }

  lemma RecognisesOther(d: bytes, c: Controls) returns (p: Packet)
    requires |d| >= 3 && TypeOf(d[0]).Some? && TypeOf(d[0]).value != REPLY
    requires Terminal(Walk(Id2(TypeOf(d[0]).value), d, 3, c).0).Some?
    ensures WellFormed(p) && Serialise(p) <= d
  {
    var kind := TypeOf(d[0]).value;
    WordParts(d[1], d[2]);
    assert Terminal(Id2(kind)).None? || |Fields(kind)| == 0;
    var fields := ScanFields(Id2(kind), kind, 0, d, 3, c);
    p := Packet(kind, Word(d[1], d[2]), false, 0, fields);
    assert Body(p) == ZeroTerminated(fields);
    PartsPrefix(d, p);
  }

  /** Conversely, whatever reaches a terminal state starts with a packet of the grammar. */
  lemma Recognises(d: bytes, c: Controls) returns (p: Packet)
    requires Terminal(Walk(Init, d, 0, c).0).Some?
    ensures WellFormed(p) && Serialise(p) <= d
  {
    TerminalHasHeader(d, c);
    ScanHeader(d, c);
    var saved := c.(messageId := Word(d[1], d[2]));
    if TypeOf(d[0]).value == REPLY {
      p := RecognisesReply(d, saved);
    } else {
      p := RecognisesOther(d, saved);
    }
  }

  /** `channelID` and `username` are read by `translate` but no guard writes them. */
  predicate NeverWritten(c: Controls) { c.channelId == [] && c.username == [] }

  lemma {:induction false} StoreAllKeeps(kind: MessageType, k: nat, c: Controls, fields: seq<bytes>)
    requires k + |fields| <= |Fields(kind)|
    ensures var s := StoreAll(kind, k, c, fields);
            s == c.(dispName := s.dispName, content := s.content, secret := s.secret)
    decreases |fields|
  {
    if fields != [] {
      StoreAllKeeps(kind, k + 1, Store(Fields(kind)[k].slot, c, fields[0]), fields[1..]);
    }
  }

  lemma StoreTwo(kind: MessageType, k: nat, c: Controls, fields: seq<bytes>)
    requires 0 < |fields| <= 2 && k + |fields| == |Fields(kind)|
    ensures StoreAll(kind, k, c, fields) ==
            var first := Store(Fields(kind)[k].slot, c, fields[0]);
            if |fields| == 1 then first else Store(Fields(kind)[k + 1].slot, first, fields[1])
  {
    var first := Store(Fields(kind)[k].slot, c, fields[0]);
    if |fields| == 2 {
      assert fields[1..] == [fields[1]] && fields[1..][1..] == [];
      assert StoreAll(kind, k + 1, first, fields[1..]) == Store(Fields(kind)[k + 1].slot, first, fields[1]);
    }
  }

  /** What `translate` makes of a packet's final state and saved fields. */
  lemma TranslatesTo(p: Packet, c: Controls)
    requires WellFormed(p) && NeverWritten(c)
    ensures Terminal(FinalState(p)) == Some(p.kind)
    ensures Translate(FinalState(p), Saved(p, c)).0 == Outcome(p)
    ensures NeverWritten(Translate(FinalState(p), Saved(p, c)).1)
  {
    var c1 := c.(messageId := p.id);
    var c2 := if p.kind == REPLY then c1.(status := if p.ok then 1 else 0, replyId := p.refId) else c1;
    StoreAllKeeps(p.kind, 0, c2, p.fields);
    if p.kind == AUTH {
      StoreTwo(AUTH, 1, Store(Secret, c2, p.fields[0]), p.fields[1..]);
    } else if p.fields != [] {
      StoreTwo(p.kind, 0, c2, p.fields);
    }
  }

  // -------------------------------------------------------------- the main results

  /**
   * A datagram that starts with a packet decodes to that packet's outcome, with
   * whatever controls an earlier datagram left and whatever bytes follow the packet.
   */
  lemma DecodesPacket(c: Controls, d: Datagram, p: Packet)
    requires WellFormed(p) && NeverWritten(c) && Serialise(p) <= d
    ensures DecodeWith(c, d).0 == Outcome(p) && NeverWritten(DecodeWith(c, d).1)
  {
    Accepts(d, p, c);
    TranslatesTo(p, c);
  }

  /** A datagram that starts with no packet is malformed. */
  lemma DecodesOther(c: Controls, d: Datagram)
    requires NeverWritten(c) && !exists p :: WellFormed(p) && Serialise(p) <= d
    ensures DecodeWith(c, d).0 == Malformed(New(NONE, []))
    ensures NeverWritten(DecodeWith(c, d).1)
  {
    if Terminal(Walk(Init, d, 0, c).0).Some? {
      var p := Recognises(d, c);
      assert false;
    }
    WalkKeeps(Init, d, 0, c);
  }

  lemma {:induction false} WalkKeeps(st: Scan, d: bytes, i: nat, c: Controls)
    requires i <= |d| && (st != Init ==> i > 0) && NeverWritten(c)
    ensures NeverWritten(Walk(st, d, i, c).1)
    decreases |d| - i
  {
    if i < |d| && Step(st, d, i, c).Some? {
      var (next, saved) := Step(st, d, i, c).value;
      assert NeverWritten(saved);
      WalkKeeps(next, d, i + 1, saved);
    }
  }

  /**
   * The decoder's language: a message that is not the internal error comes out if
   * and only if a prefix of the datagram is a packet within the setters' limits,
   * and then the message is the one the packet means.
   */
  lemma DecoderLanguage(d: Datagram, m: Message)
    ensures Decode(d) == m && m.kind != ERR_INTERNAL <==>
            exists p :: WellFormed(p) && Serialise(p) <= d && Fits(p) && Meaning(p) == m
  {
    if p :| WellFormed(p) && Serialise(p) <= d {
      DecodesPacket(FRESH, d, p);
      forall q | WellFormed(q) && Serialise(q) <= d ensures Outcome(q) == Outcome(p) {
        DecodesPacket(FRESH, d, q);
      }
      assert Meaning(p).kind != ERR_INTERNAL;
    } else {
      DecodesOther(FRESH, d);
    }
  }

  /** What an earlier datagram left behind, malformed or not, never shows in a later message. */
  lemma HistoryIndependence(c: Controls, d: Datagram)
    requires NeverWritten(c)
    ensures DecodeWith(c, d).0 == Decode(d) && NeverWritten(DecodeWith(c, d).1)
  {
    if p :| WellFormed(p) && Serialise(p) <= d {
      DecodesPacket(c, d, p);
      DecodesPacket(FRESH, d, p);
    } else {
      DecodesOther(c, d);
      DecodesOther(FRESH, d);
    }
  }

  // ------------------------------------------------------------------- the decoder

  class UdpDecoder {
    var controls: Controls
    var output: Scan

    ghost predicate Valid()
      reads this
    {
      NeverWritten(controls)
    }

    constructor ()
      ensures Valid()
    {
      controls, output := FRESH, End;
    }

    /** Every datagram decodes as it would with a new decoder. */
    method Receive(d: Datagram) returns (m: Message)
      requires Valid()
      modifies this
      ensures Valid()
      ensures m == Decode(d)
    {
      HistoryIndependence(controls, d);
      ghost var before := controls;
      var curr := Init;
      output := End;
      var i := 0;
      while i < |d|
        invariant 0 <= i <= |d| && (curr != Init ==> i > 0)
        invariant output == End && curr != End
        invariant Walk(Init, d, 0, before) == Walk(curr, d, i, controls)
      {
        var taken := Step(curr, d, i, controls);
        if taken.None? {
          output := curr;
          break;
        }
        curr, controls := taken.value.0, taken.value.1;
        i := i + 1;
      }
      if output == End { output := curr; }
      assert Walk(Init, d, 0, before) == (output, controls);
      m := Conclude();
    }

    /** `translate`: reset the controls after a success, keep them otherwise. */
    method Conclude() returns (m: Message)
      modifies this
      ensures (m, controls) == Translate(old(output), old(controls))
    {
      var kind := Terminal(output);
      if kind.None? { return Malformed(New(NONE, [])); }
      match Fill(kind.value, controls)
      case Ok(filled) =>
        m, controls, output := filled, FRESH, End;
      case Thrown(partial) =>
        m := Malformed(partial);
    }
  }
}
