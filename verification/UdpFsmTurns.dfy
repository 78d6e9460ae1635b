/** What single turns do to the queue and put on the wire, entry by entry. */
module UdpFsmTurns {
  import opened Bytes
  import opened Messages
  import opened UdpEncoder
  import opened UdpFsm
  import opened UdpFsmTable
  import opened UdpFsmQueue
  import opened UdpFsmDrain
  import opened UdpFsmWire
  import UdpFsmBudget
  import UdpPackets
  import UdpDecoder

  predicate CanRejoin(e: Entry) { e.message.kind == JOIN && e.retransmissions > 0 }

  predicate IsSpent(e: Entry) { e.retransmissions == 0 }

  predicate IsDue(kind: MessageType, timeout: nat, now: int, e: Entry) {
    e.message.kind == kind && now - e.timestamp > timeout
  }

  /** The queue with one budget unit less for an entry that was sent or timed out just now. */
  function Charged(stack: seq<Entry>, k: nat, now: int): seq<Entry>
    requires k < |stack|
  {
    var e := stack[k];
    stack[k := Entry(now, if e.retransmissions == 0 then 0 else e.retransmissions - 1, e.message)]
  }

  function Unspent(stack: seq<Entry>): seq<Entry> {
    if stack == [] then []
    else (if stack[0].retransmissions == 0 then [] else [stack[0]]) + Unspent(stack[1..])
  }

  lemma {:induction false} ErasesSpent(stack: seq<Entry>, env: Env)
    ensures EraseIf(stack, Exhausted, env) == Unspent(stack)
  {
    if stack != [] {
      ErasesSpent(stack[1..], env);
      assert [] + Unspent(stack[1..]) == Unspent(stack[1..]);
    }
  }

  /** Exactly one more datagram: the message, under its own ID, or a new one where it has none. */
  predicate SendsOne(c: Client, c1: Client, cause: Cause, m: Message) {
    var id := if m.id == 65535 then c.issued % 0x1_0000 else m.id;
    && c1.sent == c.sent + [Sent(cause, m, id, Encode(m, c.cfg, id))]
    && c1.issued == c.issued + if m.id == 65535 then 1 else 0
  }

  // ------------------------------------------------------------------ turns without input

  /** The first entry with a property is the one that is found. */
  lemma FoundAt(stack: seq<Entry>, t: Test, env: Env, k: nat)
    requires k < |stack| && Holds(t, stack[k], env) && forall j :: 0 <= j < k ==> !Holds(t, stack[j], env)
    ensures FindFirst(stack, t, env) == k
  {
  }

  lemma NotFound(stack: seq<Entry>, t: Test, env: Env)
    requires forall e :: e in stack ==> !Holds(t, e, env)
    ensures FindFirst(stack, t, env) == |stack|
  {
    assert forall j :: 0 <= j < |stack| ==> stack[j] in stack;
  }

  lemma NoneSpent(c: Client, env: Env)
    requires forall e :: e in c.stack ==> !IsSpent(e)
    ensures !Any(Exhausted, env, c)
  {
    NotFound(c.stack, Exhausted, env);
  }

  /** In `Open`, a JOIN with budget left goes first: it is sent again, and the client waits in `Join`. */
  lemma OpenRejoins(r: byte, timeout: nat, now: int, c: Client, k: nat)
    requires c.state == Open && c.slots == EMPTY && k < |c.stack|
    requires CanRejoin(c.stack[k]) && forall j :: 0 <= j < k ==> !CanRejoin(c.stack[j])
    ensures var c1 := Handle(r, timeout, Idle(now), c);
            && SendsOne(c, c1, Resend, c.stack[k].message)
            && c1.state == Join && c1.stack == c.stack && c1.slots == EMPTY && c1.cfg == c.cfg
  {
    var env := Env(r, timeout, now);
    FoundAt(c.stack, Resendable(JOIN), env, k);
    AdvanceIsTable(env, c);
  }

  /** Without one, all entries without budget are dropped at once, and nothing is sent. */
  lemma OpenSweeps(r: byte, timeout: nat, now: int, c: Client)
    requires c.state == Open && c.slots == EMPTY
    requires (forall e :: e in c.stack ==> !CanRejoin(e)) && exists e :: e in c.stack && IsSpent(e)
    ensures Handle(r, timeout, Idle(now), c) == c.(stack := Unspent(c.stack))
  {
    var env := Env(r, timeout, now);
    NotFound(c.stack, Resendable(JOIN), env);
    AnySpent(c, env);
    ErasesSpent(c.stack, env);
    AdvanceIsTable(env, c);
  }

  /** Without those, the first MSG whose timeout has passed is charged and sent again, and nothing else changes. */
  lemma OpenResends(r: byte, timeout: nat, now: int, c: Client, k: nat)
    requires c.state == Open && c.slots == EMPTY && k < |c.stack|
    requires forall e :: e in c.stack ==> !CanRejoin(e) && !IsSpent(e)
    requires IsDue(MSG, timeout, now, c.stack[k]) && forall j :: 0 <= j < k ==> !IsDue(MSG, timeout, now, c.stack[j])
    ensures var c1 := Handle(r, timeout, Idle(now), c);
            && SendsOne(c, c1, Resend, c.stack[k].message)
            && c1.state == Open && c1.stack == Charged(c.stack, k, now) && c1.slots == EMPTY && c1.cfg == c.cfg
  {
    var env := Env(r, timeout, now);
    NotFound(c.stack, Resendable(JOIN), env);
    NoneSpent(c, env);
    FoundAt(c.stack, Expired(MSG), env, k);
    AdvanceIsTable(env, c);
  }

  /** And if no MSG is due, nothing happens. */
  lemma OpenWaits(r: byte, timeout: nat, now: int, c: Client)
    requires c.state == Open && c.slots == EMPTY
    requires forall e :: e in c.stack ==> !CanRejoin(e) && !IsSpent(e) && !IsDue(MSG, timeout, now, e)
    ensures Handle(r, timeout, Idle(now), c) == c
  {
    var env := Env(r, timeout, now);
    NotFound(c.stack, Resendable(JOIN), env);
    NoneSpent(c, env);
    NotFound(c.stack, Expired(MSG), env);
    AdvanceIsTable(env, c);
  }

  lemma AnySpent(c: Client, env: Env)
    requires exists e :: e in c.stack && IsSpent(e)
    ensures Any(Exhausted, env, c)
  {
    var e :| e in c.stack && IsSpent(e);
    assert Holds(Exhausted, e, env);
  }

  /** In `Auth`, an AUTH without budget is dropped. */
  lemma AuthSweeps(r: byte, timeout: nat, now: int, c: Client)
    requires c.state == Auth && c.slots == EMPTY && exists e :: e in c.stack && IsSpent(e)
    ensures Handle(r, timeout, Idle(now), c) == c.(stack := Unspent(c.stack))
  {
    var env := Env(r, timeout, now);
    AnySpent(c, env);
    ErasesSpent(c.stack, env);
    AdvanceIsTable(env, c);
  }

  /** In `Auth`, the first AUTH whose timeout has passed is charged and sent again. */
  lemma AuthResends(r: byte, timeout: nat, now: int, c: Client, k: nat)
    requires c.state == Auth && c.slots == EMPTY && k < |c.stack| && forall e :: e in c.stack ==> !IsSpent(e)
    requires IsDue(AUTH, timeout, now, c.stack[k]) && forall j :: 0 <= j < k ==> !IsDue(AUTH, timeout, now, c.stack[j])
    ensures var c1 := Handle(r, timeout, Idle(now), c);
            && SendsOne(c, c1, Resend, c.stack[k].message)
            && c1.state == Auth && c1.stack == Charged(c.stack, k, now) && c1.slots == EMPTY && c1.cfg == c.cfg
  {
    var env := Env(r, timeout, now);
    NoneSpent(c, env);
    FoundAt(c.stack, Expired(AUTH), env, k);
    AdvanceIsTable(env, c);
  }

  lemma AuthWaits(r: byte, timeout: nat, now: int, c: Client)
    requires c.state == Auth && c.slots == EMPTY
    requires forall e :: e in c.stack ==> !IsSpent(e) && !IsDue(AUTH, timeout, now, e)
    ensures Handle(r, timeout, Idle(now), c) == c
  {
    var env := Env(r, timeout, now);
    NoneSpent(c, env);
    NotFound(c.stack, Expired(AUTH), env);
    AdvanceIsTable(env, c);
  }

  /** In `Join`, a JOIN whose timeout has passed is charged and the client back in `Open`; nothing is sent yet. */
  lemma JoinTimesOut(r: byte, timeout: nat, now: int, c: Client, k: nat)
    requires c.state == Join && c.slots == EMPTY && k < |c.stack|
    requires IsDue(JOIN, timeout, now, c.stack[k]) && forall j :: 0 <= j < k ==> !IsDue(JOIN, timeout, now, c.stack[j])
    ensures Handle(r, timeout, Idle(now), c) == c.(state := Open, stack := Charged(c.stack, k, now))
  {
    var env := Env(r, timeout, now);
    FoundAt(c.stack, Expired(JOIN), env, k);
    AdvanceIsTable(env, c);
  }

  /** Until then, nothing is resent or dropped in `Join`, not even a MSG that is due. */
  lemma JoinWaits(r: byte, timeout: nat, now: int, c: Client)
    requires c.state == Join && c.slots == EMPTY && forall e :: e in c.stack ==> !IsDue(JOIN, timeout, now, e)
    ensures Handle(r, timeout, Idle(now), c) == c
  {
    var env := Env(r, timeout, now);
    NotFound(c.stack, Expired(JOIN), env);
    AdvanceIsTable(env, c);
  }

  lemma StartWaits(r: byte, timeout: nat, now: int, c: Client)
    requires c.state == Start && c.slots == EMPTY
    ensures Handle(r, timeout, Idle(now), c) == c
  {
    AdvanceIsTable(Env(r, timeout, now), c);
  }

  // --------------------------------------------------------------- turns with a datagram

  /** In `Auth`, a positive REPLY with the ID of the AUTH is confirmed and opens the client; another one is dropped. */
  lemma AuthReplyRead(r: byte, timeout: nat, now: int, c: Client, d: Datagram)
    requires c.state == Auth && Shape(c) && SlotsRead(c)
    requires UdpDecoder.Decode(d).kind == REPLY && UdpDecoder.Decode(d).isOk
    ensures var m, c1 := UdpDecoder.Decode(d), Handle(r, timeout, Iteration(now, NoLine, Some(d)), c);
            if c.stack != [] && c.stack[0].message.id == m.refId then
              c1.state == Open && c1.stack == [] && SentConfirm(c.sent, c1.sent, m.id)
            else c1 == c.(slots := EMPTY)
  {
    var mid := TakeDatagram(Some(d), c);
    AuthReplyRow(Env(r, timeout, now), mid);
    AdvanceIsTable(Env(r, timeout, now), mid);
    UdpFsmWire.ConfirmBytes(mid, mid.slots.input);
  }

  /** The entries with another ID. */
  function Others(stack: seq<Entry>, id: uint16): seq<Entry> {
    if stack == [] then []
    else (if stack[0].message.id == id then [] else [stack[0]]) + Others(stack[1..], id)
  }

  lemma {:induction false} ErasesId(stack: seq<Entry>, id: uint16, env: Env)
    ensures EraseIf(stack, WithId(id), env) == Others(stack, id)
    ensures |Others(stack, id)| == |stack| ==> Others(stack, id) == stack
  {
    if stack != [] {
      ErasesId(stack[1..], id, env);
      assert [] + Others(stack[1..], id) == Others(stack[1..], id);
    }
  }

  lemma ConfirmRow(env: Env, c: Client)
    requires c.state == Open && c.slots.input.kind == CONFIRM && c.slots.output.kind in {NONE, BYE}
    ensures var t := WithId(Swap(c.slots.input.id));
            Table(env, c.slots, c) == if Any(t, env, c) then Go(Open, Erase(t), Silent) else Refuse(true)
  {
  }

  lemma ConfirmErases(env: Env, c: Client, id: uint16)
    requires c.state == Open && c.slots.input.kind == CONFIRM && c.slots.output.kind in {NONE, BYE}
    requires id == Swap(c.slots.input.id)
    ensures Advance(env, c) == c.(slots := EMPTY, stack := Others(c.stack, id))
  {
    ConfirmRow(env, c);
    AnyErases(WithId(id), env, c);
    ErasesId(c.stack, id, env);
    AdvanceIsTable(env, c);
  }

  /** The two bytes of an ID in the other order. */
  function Swapped(id: uint16): uint16 { id % 256 * 256 + id / 256 }

  /** In `Open`, a CONFIRM takes the entries with its ID, read with the bytes swapped, off the queue. */
  lemma ConfirmInOpen(r: byte, timeout: nat, now: int, c: Client, d: Datagram)
    requires c.state == Open && SlotsRead(c) && UdpDecoder.Decode(d).kind == CONFIRM
    ensures Handle(r, timeout, Iteration(now, NoLine, Some(d)), c) ==
            c.(slots := EMPTY, stack := Others(c.stack, Swapped(UdpDecoder.Decode(d).id)))
  {
    ConfirmErases(Env(r, timeout, now), TakeDatagram(Some(d), c), Swapped(UdpDecoder.Decode(d).id));
  }

  /** Elsewhere, a CONFIRM stays in the input slot, unless a JOIN is queued in `Join` with its ID, or a BYE waits. */
  lemma ConfirmElsewhere(r: byte, timeout: nat, now: int, c: Client, d: Datagram)
    requires c.state in {Start, Auth, Join} && SlotsRead(c) && UdpDecoder.Decode(d).kind == CONFIRM
    ensures var m := UdpDecoder.Decode(d);
            Handle(r, timeout, Iteration(now, NoLine, Some(d)), c) ==
            if c.slots.output.kind == BYE || (c.state == Join && exists e :: e in c.stack && e.message.id == m.id)
            then c.(slots := EMPTY)
            else c.(slots := Slots(m, c.slots.output))
  {
    var env, mid := Env(r, timeout, now), TakeDatagram(Some(d), c);
    AnyIsSome(WithId(UdpDecoder.Decode(d).id), env, mid);
    AdvanceIsTable(env, mid);
  }

  /** The datagrams that a state has no use for are dropped, and a BYE that waits with them. */
  predicate IsUnwanted(state: State, kind: MessageType) {
    match state
    case Start => kind in {REPLY, MSG, PING, AUTH, JOIN}
    case Auth => kind in {PING, AUTH, JOIN}
    case Open => kind in {AUTH, JOIN}
    case Join => kind in {AUTH, JOIN}
    case End => false
  }

  lemma UnwantedRow(env: Env, c: Client)
    requires IsUnwanted(c.state, c.slots.input.kind) && c.slots.output.kind in {NONE, BYE}
    ensures Table(env, c.slots, c).Refuse?
  {
  }

  lemma Unwanted(r: byte, timeout: nat, now: int, c: Client, d: Datagram)
    requires SlotsRead(c) && IsUnwanted(c.state, UdpDecoder.Decode(d).kind)
    ensures Handle(r, timeout, Iteration(now, NoLine, Some(d)), c) == c.(slots := EMPTY)
  {
    UnwantedRow(Env(r, timeout, now), TakeDatagram(Some(d), c));
    AdvanceIsTable(Env(r, timeout, now), TakeDatagram(Some(d), c));
  }

  // --------------------------------------------------------------- what the client says

  /** `exit()` sends exactly one BYE, under the next ID and with the display name of that moment. */
  lemma GoodbyeSent(r: byte, timeout: nat, c: Client, cfg: Config)
    requires c.state != End
    ensures var c1, id := Handle(r, timeout, Quit(cfg), c), c.issued % 0x1_0000;
            var x := [0xFF, id % 256, id / 256] + cfg.displayName + [0];
            && c1.sent == c.sent + [Sent(Goodbye, Message(BYE, [], cfg.displayName, false, 65535, 0), id,
                                         x[..|x| % 0x1_0000])]
            && c1.issued == c.issued + 1
            && c1.state == c.state && c1.stack == c.stack && c1.cfg == cfg
  {
    UdpPackets.DatagramsSent(New(BYE, cfg.displayName), cfg, c.issued % 0x1_0000);
  }

  lemma UnexpectedRow(env: Env, c: Client)
    requires c.state == Open && c.slots.input.kind == REPLY && c.slots.output.kind in {NONE, BYE}
    requires c.slots.input.refId >= Counter(c)
    ensures Table(env, c.slots, c) ==
            Go(End, Keep, Send(Response, New(ERR, c.cfg.displayName).(text := UNEXPECTED_REPLY)))
  {
  }

  /** A REPLY in `Open` with a reference that was not given out is answered by this ERR, and the client ends. */
  lemma UnexpectedAnswered(r: byte, timeout: nat, now: int, c: Client, d: Datagram)
    requires c.state == Open && SlotsRead(c) && UdpDecoder.Decode(d).kind == REPLY
    requires UdpDecoder.Decode(d).refId >= c.issued % 0x1_0000
    ensures var c1 := Handle(r, timeout, Iteration(now, NoLine, Some(d)), c);
            var text := Ascii("ERROR: Client was not requesting anything, reply is unexpected!");
            && SendsOne(c, c1, Response, Message(ERR, text, c.cfg.displayName, false, 65535, 0))
            && c1.state == End && c1.stack == c.stack
  {
    UnexpectedRow(Env(r, timeout, now), TakeDatagram(Some(d), c));
    AdvanceIsTable(Env(r, timeout, now), TakeDatagram(Some(d), c));
  }

  /** A MSG before the client is authenticated is answered by an empty ERR, and the client ends. */
  lemma EarlyMessageEnds(r: byte, timeout: nat, now: int, c: Client, d: Datagram)
    requires c.state == Auth && SlotsRead(c) && UdpDecoder.Decode(d).kind == MSG
    ensures var c1 := Handle(r, timeout, Iteration(now, NoLine, Some(d)), c);
            && SendsOne(c, c1, Response, Message(ERR, [], c.cfg.displayName, false, 65535, 0))
            && c1.state == End && c1.stack == c.stack
  {
    AdvanceIsTable(Env(r, timeout, now), TakeDatagram(Some(d), c));
  }

  /** A confirmation draws a new ID only for the ID 65535, which means that there is none. */
  lemma ConfirmationDraws(r: byte, timeout: nat, now: int, c: Client, d: Datagram)
    requires c.state in {Open, Join} && SlotsRead(c) && UdpDecoder.Decode(d).kind in {MSG, PING}
    ensures Handle(r, timeout, Iteration(now, NoLine, Some(d)), c).issued ==
            c.issued + if UdpDecoder.Decode(d).id == 65535 then 1 else 0
  {
    EchoRow(Env(r, timeout, now), TakeDatagram(Some(d), c));
    AdvanceIsTable(Env(r, timeout, now), TakeDatagram(Some(d), c));
  }

  /** A line that is refused leaves only the configuration it may have changed. */
  lemma RejectedLine(r: byte, timeout: nat, now: int, c: Client, cfg: Config, datagram: Option<Datagram>)
    ensures Handle(r, timeout, Iteration(now, Rejected(cfg), datagram), c) ==
            if c.state == End then c else Handle(r, timeout, Iteration(now, NoLine, datagram), c.(cfg := cfg))
  {
  }

  /** A local command such as `/rename` does too, but it overwrites a BYE that is waiting. */
  lemma LocalCommand(r: byte, timeout: nat, now: int, c: Client, cfg: Config, datagram: Option<Datagram>)
    ensures Handle(r, timeout, Iteration(now, Parsed(cfg, NOTHING), datagram), c) ==
            if c.state == End then c
            else
              Handle(r, timeout, Iteration(now, NoLine, datagram),
                     c.(cfg := cfg, slots := c.slots.(output := Message(NONE, [], [], false, 65535, 0))))
  {
  }

  // ------------------------------------------------------------- turns with a command and a datagram

  predicate IsCommand(m: Message) { m.kind in {AUTH, JOIN, MSG} && m.id == UNASSIGNED }

  /** The client after a command that was sent, if nothing else happened. */
  function Told(c: Client, cfg: Config, m: Message): Client {
    var id := Counter(c);
    c.(cfg := cfg, issued := c.issued + 1, sent := c.sent + [Sent(UserLine, m, id, Encode(m, cfg, id))])
  }

  /** What the automaton gets to read when both come in one turn. */
  lemma ReadsBoth(c: Client, cfg: Config, m: Message, d: Datagram)
    requires IsCommand(m)
    ensures var mid := TakeDatagram(Some(d), TakeLine(Parsed(cfg, m), c));
            && mid == Told(c, cfg, m).(slots := mid.slots) && mid.slots.output == m.(id := Counter(c))
            && mid.slots.input == TakeDatagram(Some(d), c).slots.input
            && mid.slots.input.kind != ERR_INTERNAL
  {
    UdpFsmBudget.PreviousId(c.issued);
  }

  /** A JOIN typed in `Open` with an empty queue goes first: whatever datagram came in is lost, and not answered. */
  lemma JoinTypedFirst(r: byte, timeout: nat, now: int, c: Client, cfg: Config, m: Message, d: Datagram)
    requires c.state == Open && c.stack == [] && IsCommand(m) && m.kind == JOIN
    ensures Handle(r, timeout, Iteration(now, Parsed(cfg, m), Some(d)), c) ==
            Told(c, cfg, m).(slots := EMPTY, state := Join, stack := [Entry(now, r, m.(id := Counter(c)))])
  {
    var env, mid := Env(r, timeout, now), TakeDatagram(Some(d), TakeLine(Parsed(cfg, m), c));
    ReadsBoth(c, cfg, m, d);
    AdvanceIsTable(env, mid);
    assert Queue(Push, env, mid.slots, []) == [NewEntry(env, mid.slots.output)];
  }

  lemma MessageRow(env: Env, c: Client)
    requires c.state == Open && c.slots.output.kind == MSG && c.slots.input.kind !in {NONE, MSG, PING}
    ensures Table(env, c.slots, c) == Go(Open, Push, Silent)
  {
  }

  /** A MSG typed in `Open` is queued, and of the datagrams only a MSG or a PING is answered before it. */
  lemma MessageTypedFirst(r: byte, timeout: nat, now: int, c: Client, cfg: Config, m: Message, d: Datagram)
    requires c.state == Open && IsCommand(m) && m.kind == MSG && UdpDecoder.Decode(d).kind !in {MSG, PING, NONE}
    ensures Handle(r, timeout, Iteration(now, Parsed(cfg, m), Some(d)), c) ==
            Told(c, cfg, m).(slots := EMPTY, stack := c.stack + [Entry(now, r, m.(id := Counter(c)))])
  {
    var env, mid := Env(r, timeout, now), TakeDatagram(Some(d), TakeLine(Parsed(cfg, m), c));
    ReadsBoth(c, cfg, m, d);
    MessageRow(env, mid);
    AdvanceIsTable(env, mid);
  }

  /** A command that goes before the datagram. */
  predicate GoesFirst(c: Client, m: Message, kind: MessageType) {
    c.state == Open && ((m.kind == JOIN && c.stack == []) || (m.kind == MSG && kind !in {MSG, PING}))
  }

  lemma SameRow(env: Env, c: Client, output: Message)
    requires c.slots.input.kind in {REPLY, MSG, PING} && c.slots.output.kind == NONE
    requires output.kind in {AUTH, JOIN, MSG} && !GoesFirst(c, output, c.slots.input.kind)
    ensures var m := c.slots.(output := output); Table(env, m, c.(slots := m)) == Table(env, c.slots, c)
    ensures Table(env, c.slots, c).Go? ==> !Table(env, c.slots, c).op.Push?
  {
  }

  /**
   * Any other command is only sent, and not queued, when a REPLY, a MSG or a PING comes
   * in with it: the turn is that of the datagram alone.
   */
  lemma DatagramGoesFirst(r: byte, timeout: nat, now: int, c: Client, cfg: Config, m: Message, d: Datagram)
    requires c.state != End && IsCommand(m) && UdpDecoder.Decode(d).kind in {REPLY, MSG, PING}
    requires !GoesFirst(c, m, UdpDecoder.Decode(d).kind)
    ensures Handle(r, timeout, Iteration(now, Parsed(cfg, m), Some(d)), c) ==
            Handle(r, timeout, Iteration(now, NoLine, Some(d)), Told(c, cfg, m).(slots := EMPTY))
  {
    var env, mid := Env(r, timeout, now), TakeDatagram(Some(d), TakeLine(Parsed(cfg, m), c));
    var alone := TakeDatagram(Some(d), Told(c, cfg, m).(slots := EMPTY));
    ReadsBoth(c, cfg, m, d);
    SameRow(env, alone, mid.slots.output);
    SameAdvance(env, alone, mid.slots.output);
    assert mid == alone.(slots := alone.slots.(output := mid.slots.output));
  }

  lemma SameAdvance(env: Env, c: Client, output: Message)
    requires c.slots.input.kind in {REPLY, MSG, PING} && c.slots.output.kind == NONE
    requires output.kind in {AUTH, JOIN, MSG} && !GoesFirst(c, output, c.slots.input.kind)
    ensures Advance(env, c.(slots := c.slots.(output := output))) == Advance(env, c)
  {
    SameRow(env, c, output);
    AdvanceIsTable(env, c);
    AdvanceIsTable(env, c.(slots := c.slots.(output := output)));
  }

  lemma FarewellOverruled(env: Env, c: Client)
    requires c.state != End && c.slots.input.kind in {ERR, BYE, AUTH, JOIN} && c.slots.output.kind in {AUTH, JOIN, MSG}
    requires !GoesFirst(c, c.slots.output, c.slots.input.kind)
    ensures Table(env, c.slots, c).Refuse?
  {
  }

  /**
   * With a command in the same turn, an ERR, a BYE or a malformed datagram does not end
   * the client: it is dropped without an answer, and the command is only sent.
   */
  lemma FarewellMissed(r: byte, timeout: nat, now: int, c: Client, cfg: Config, m: Message, d: Datagram)
    requires c.state != End && IsCommand(m) && UdpDecoder.Decode(d).kind in {ERR, BYE, ERR_INTERNAL, AUTH, JOIN}
    requires !GoesFirst(c, m, UdpDecoder.Decode(d).kind)
    ensures Handle(r, timeout, Iteration(now, Parsed(cfg, m), Some(d)), c) == Told(c, cfg, m).(slots := EMPTY)
  {
    var env, mid := Env(r, timeout, now), TakeDatagram(Some(d), TakeLine(Parsed(cfg, m), c));
    ReadsBoth(c, cfg, m, d);
    FarewellOverruled(env, mid);
    AdvanceIsTable(env, mid);
  }

  /** A CONFIRM that comes in with a command counts where it would alone, and else is dropped. */
  lemma ConfirmWithCommand(r: byte, timeout: nat, now: int, c: Client, cfg: Config, m: Message, d: Datagram)
    requires c.state != End && IsCommand(m) && UdpDecoder.Decode(d).kind == CONFIRM && !GoesFirst(c, m, CONFIRM)
    ensures Handle(r, timeout, Iteration(now, Parsed(cfg, m), Some(d)), c) ==
            Told(c, cfg, m).(slots := EMPTY, stack := if c.state == Open
              then Others(c.stack, Swapped(UdpDecoder.Decode(d).id)) else c.stack)
  {
    var env, mid := Env(r, timeout, now), TakeDatagram(Some(d), TakeLine(Parsed(cfg, m), c));
    ReadsBoth(c, cfg, m, d);
    CommandConfirm(env, mid, Swapped(UdpDecoder.Decode(d).id));
  }

  lemma CommandConfirm(env: Env, c: Client, id: uint16)
    requires c.state != End && c.slots.input.kind == CONFIRM && c.slots.output.kind in {AUTH, JOIN, MSG}
    requires !GoesFirst(c, c.slots.output, CONFIRM) && id == Swap(c.slots.input.id)
    ensures Advance(env, c) == c.(slots := EMPTY, stack := if c.state == Open then Others(c.stack, id) else c.stack)
  {
    AnyErases(WithId(id), env, c);
    ErasesId(c.stack, id, env);
    AdvanceIsTable(env, c);
  }
}
