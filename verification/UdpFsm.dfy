/**
 * The UDP client automaton: its queue of unconfirmed messages, its guards with
 * their side effects, the wiring, and one iteration of the main loop.
 */
module UdpFsm {
  import opened Bytes
  import opened Messages
  import opened UdpEncoder
  import UdpDecoder

  datatype State = Start | Auth | Open | Join | End

  /** Fixed when the client starts; the clock reading is that of the current iteration. */
  datatype Env = Env(retransmissions: byte, timeout: nat, now: int)

  /** `StackElement`: a queued message, when it was last sent, and how often it may still be resent. */
  datatype Entry = Entry(timestamp: int, retransmissions: byte, message: Message) {
    function Decremented(now: int): Entry {
      Entry(now, if retransmissions != 0 then retransmissions - 1 else 0, message)
    }
  }

  function NewEntry(env: Env, m: Message): Entry { Entry(env.now, env.retransmissions, m) }

  /** The predicates handed to `find_if` and `erase_if`. */
  datatype Test = Expired(kind: MessageType) | Resendable(kind: MessageType) | WithId(id: uint16) | Exhausted

  predicate Holds(t: Test, e: Entry, env: Env) {
    match t
    case Expired(kind) => e.message.kind == kind && env.now - e.timestamp > env.timeout
    case Resendable(kind) => e.message.kind == kind && e.retransmissions != 0
    case WithId(id) => e.message.id == id
    case Exhausted => e.retransmissions == 0
  }

  /** The first entry that passes the test, or the end of the queue. */
  function FindFirst(stack: seq<Entry>, t: Test, env: Env): (k: nat)
    ensures k <= |stack|
    ensures k < |stack| ==> Holds(t, stack[k], env)
    ensures forall j :: 0 <= j < k ==> !Holds(t, stack[j], env)
  {
    if stack == [] || Holds(t, stack[0], env) then 0 else FindFirst(stack[1..], t, env) + 1
  }

  function EraseIf(stack: seq<Entry>, t: Test, env: Env): (r: seq<Entry>)
    ensures |r| <= |stack|
    ensures forall e :: e in r <==> e in stack && !Holds(t, e, env)
    ensures |r| == |stack| ==> r == stack
    ensures (exists e :: e in stack && Holds(t, e, env)) <==> |r| < |stack|
  {
    if stack == [] then []
    else
      var rest := EraseIf(stack[1..], t, env);
      if Holds(t, stack[0], env) then rest else [stack[0]] + rest
  }

  /** The two message slots of the loop. */
  datatype Slots = Slots(input: Message, output: Message)

  const NOTHING := New(NONE, [])
  const EMPTY := Slots(NOTHING, NOTHING)

  /** Why a datagram was sent. */
  datatype Cause = UserLine | Resend | Response | Goodbye

  /**
   * One use of the encoder: the message as it was handed over, the ID it got, and the
   * datagram that was sent, or no bytes where the size came out as zero and `send` is skipped.
   */
  datatype Sent = Sent(cause: Cause, message: Message, id: uint16, data: bytes)

  /** Everything that changes. `issued` counts the IDs ever drawn; `sent` is a history variable. */
  datatype Client = Client(
    state: State, stack: seq<Entry>, slots: Slots, cfg: Config, issued: nat, sent: seq<Sent>)

  function Initial(cfg: Config): Client { Client(Start, [], EMPTY, cfg, 0, []) }

  /** `getID()`. */
  function Counter(c: Client): uint16 { c.issued % 0x1_0000 }

  function Cleared(c: Client): Client { c.(slots := EMPTY) }

  /** Encode and send. */
  function Transmit(c: Client, cause: Cause, m: Message): Client {
    var id := IdFor(m, c.issued);
    c.(issued := IssuedAfter(m, c.issued), sent := c.sent + [Sent(cause, m, id, Encode(m, c.cfg, id))])
  }

  function Confirmation(cfg: Config, input: Message): Message {
    New(CONFIRM, cfg.displayName).(id := input.id, refId := input.id)
  }

  /** Answer the input with a CONFIRM of its ID and clear the slots. */
  function Confirmed(c: Client, input: Message): Client {
    Cleared(Transmit(c, Response, Confirmation(c.cfg, input)))
  }

  const UNEXPECTED_REPLY := Ascii("ERROR: Client was not requesting anything, reply is unexpected!")

  // ------------------------------------------------------------------- the guards

  /** The guard lambdas, in the order of their definition; `SweepExhausted` is defined twice. */
  datatype Guard =
    | QueueAuth         // empty_auth_nan_auth_no
    | ConfirmAndEnd     // none_none_errbye_nan_no
    | UserBye           // none_none_nan_bye_no
    | ResendAuth        // auth_authminus_nan_authminus_yes
    | NegativeReply     // auth_none_nreply_nan_no
    | SweepExhausted    // authzero_none_nan_nan_no, msgjoinzero_none_nan_nan_no
    | PositiveReply     // auth_empty_reply_confirm_no
    | EarlyMessage      // none_none_msg_err_no
    | EchoMessage       // none_none_msg_confirm_no
    | QueueMessage      // none_msg_nan_msg_no
    | ResendMessage     // msg_msgminus_nan_msgminus_yes
    | Acknowledge       // msg_none_confirm_nan_no
    | EchoPing          // none_none_ping_confirm_no
    | QueueJoin         // empty_join_nan_join_no
    | ResendJoin        // join_join_nan_join_no
    | JoinConfirmed     // join_join_confirm_nan_no
    | JoinTimeout       // join_joinminus_nan_nan_yes
    | JoinReply         // join_none_reply_confirm_no
    | UnsolicitedReply  // none_none_anyreply_err_no

  /** Push an entry for the output message and clear the slots. */
  function PushedFront(env: Env, m: Slots, c: Client): Client {
    Cleared(c.(stack := [NewEntry(env, m.output)] + c.stack))
  }

  function PushedBack(env: Env, m: Slots, c: Client): Client {
    Cleared(c.(stack := c.stack + [NewEntry(env, m.output)]))
  }

  function Erased(t: Test, env: Env, c: Client): Client { Cleared(c.(stack := EraseIf(c.stack, t, env))) }

  function Dropped(stack: seq<Entry>, k: nat): seq<Entry>
    requires k < |stack|
  {
    stack[..k] + stack[k + 1..]
  }

  /** Decrement the first expired entry of a kind and send it again. */
  function Resent(kind: MessageType, env: Env, c: Client): (bool, Client) {
    var k := FindFirst(c.stack, Expired(kind), env);
    if k < |c.stack| then
      var queue := c.stack[k := c.stack[k].Decremented(env.now)];
      (true, Cleared(Transmit(c.(stack := queue), Resend, c.stack[k].message)))
    else (false, Cleared(c))
  }

  /**
   * One guard: `m` is the snapshot of the slots that the guard reads, `c` the client
   * that it changes. A guard that answers `false` may have cleared the slots.
   */
  function Apply(g: Guard, env: Env, m: Slots, c: Client): (bool, Client) {
    match g
    case QueueAuth =>
      if c.stack == [] && m.output.kind == AUTH && m.input.kind == NONE then (true, PushedFront(env, m, c))
      else (false, c)
    case ConfirmAndEnd =>
      if m.output.kind == NONE && (m.input.kind == ERR || m.input.kind == BYE) then (true, Confirmed(c, m.input))
      else (false, c)
    case UserBye =>
      if m.output.kind == BYE && m.input.kind == NONE then (true, Cleared(c)) else (false, c)
    case ResendAuth =>
      if m.input.kind == NONE then Resent(AUTH, env, c) else (false, c)
    case NegativeReply =>
      if m.input.kind == REPLY && !m.input.isOk then
        (true, Confirmed(c.(stack := EraseIf(c.stack, WithId(m.input.refId), env)), m.input))
      else (false, c)
    case SweepExhausted =>
      if m.input.kind == NONE then (|EraseIf(c.stack, Exhausted, env)| < |c.stack|, Erased(Exhausted, env, c))
      else (false, c)
    case PositiveReply =>
      var k := FindFirst(c.stack, WithId(m.input.refId), env);
      if m.input.kind == REPLY && m.input.isOk && k < |c.stack| then
        (true, Confirmed(c, m.input).(stack := Dropped(c.stack, k)))
      else (false, c)
    case EarlyMessage =>
      if m.input.kind == MSG then (true, Cleared(Transmit(c, Response, New(ERR, c.cfg.displayName))))
      else (false, c)
    case EchoMessage =>
      if m.input.kind == MSG then (true, Confirmed(c, m.input)) else (false, c)
    case QueueMessage =>
      if m.output.kind == MSG then (true, PushedBack(env, m, c)) else (false, c)
    case ResendMessage =>
      if m.input.kind == NONE then Resent(MSG, env, c) else (false, c)
    case Acknowledge =>
      if m.input.kind == CONFIRM then
        var t := WithId(Swap(m.input.id));
        (|EraseIf(c.stack, t, env)| < |c.stack|, Erased(t, env, c))
      else (false, c)
    case EchoPing =>
      if m.input.kind == PING then (true, Confirmed(c, m.input)) else (false, c)
    case QueueJoin =>
      if c.stack == [] && m.output.kind == JOIN then (true, PushedFront(env, m, c)) else (false, c)
    case ResendJoin =>
      var k := FindFirst(c.stack, Resendable(JOIN), env);
      if m.input.kind == NONE && k < |c.stack| then
        (true, Cleared(Transmit(c, Resend, c.stack[k].message)))
      else (false, c)
    case JoinConfirmed =>
      if m.input.kind == CONFIRM && FindFirst(c.stack, WithId(m.input.id), env) < |c.stack| then (true, Cleared(c))
      else (false, c)
    case JoinTimeout =>
      if m.input.kind == NONE then
        var k := FindFirst(c.stack, Expired(JOIN), env);
        if k < |c.stack| then (true, Cleared(c.(stack := c.stack[k := c.stack[k].Decremented(env.now)])))
        else (false, Cleared(c))
      else (false, c)
    case JoinReply =>
      var k := FindFirst(c.stack, Expired(JOIN), env);
      if m.input.kind == REPLY && k < |c.stack| then
        (true, Confirmed(c, m.input).(stack := Dropped(c.stack, k)))
      else (false, c)
    case UnsolicitedReply =>
      if m.input.kind == REPLY && m.input.refId >= Counter(c) then
        (true, Cleared(Transmit(c, Response, New(ERR, c.cfg.displayName).(text := UNEXPECTED_REPLY))))
      else (false, c)
  }

  // ------------------------------------------------------------------- the wiring

  datatype Edge = Edge(target: State, guards: seq<Guard>)

  function Wiring(s: State): seq<Edge> {
    match s
    case Start => [
      Edge(Auth, [QueueAuth]),
      Edge(End, [UserBye, ConfirmAndEnd])]
    case Auth => [
      Edge(Open, [PositiveReply]),
      Edge(End, [ConfirmAndEnd, UserBye, EarlyMessage]),
      Edge(Auth, [SweepExhausted, ResendAuth, NegativeReply, QueueAuth])]
    case Open => [
      Edge(Join, [QueueJoin, ResendJoin]),
      Edge(Open, [SweepExhausted, ResendMessage, EchoMessage, EchoPing, QueueMessage, Acknowledge]),
      Edge(End, [ConfirmAndEnd, UserBye, UnsolicitedReply])]
    case Join => [
      Edge(Join, [EchoMessage, EchoPing, JoinConfirmed]),
      Edge(Open, [JoinTimeout, JoinReply]),
      Edge(End, [UserBye, ConfirmAndEnd])]
    case End => []
  }

  /** A disjunct is evaluated only when the ones before it failed. */
  function OrElse(r: (bool, Client), g: Guard, env: Env, m: Slots): (bool, Client) {
    if r.0 then r else Apply(g, env, m, r.1)
  }

  function TryGuards(guards: seq<Guard>, env: Env, m: Slots, c: Client): (bool, Client) {
    if guards == [] then (false, c)
    else OrElse(TryGuards(guards[..|guards| - 1], env, m, c), guards[|guards| - 1], env, m)
  }

  /** `Edge::accept`: an edge without guards accepts. */
  function Accept(e: Edge, env: Env, m: Slots, c: Client): (bool, Client) {
    if e.guards == [] then (true, c) else TryGuards(e.guards, env, m, c)
  }

  /** `Node::next`: the target of the first accepting edge. */
  function Next(edges: seq<Edge>, env: Env, m: Slots, c: Client): (Option<State>, Client) {
    if edges == [] then (None, c)
    else
      var (target, c1) := Next(edges[..|edges| - 1], env, m, c);
      if target.Some? then (target, c1)
      else
        var (ok, c2) := Accept(edges[|edges| - 1], env, m, c1);
        (if ok then Some(edges[|edges| - 1].target) else None, c2)
  }

  // ----------------------------------------------------------------- one iteration

  /** What a line on standard input amounts to: nothing, an exception, or a message. */
  datatype Input = NoLine | Rejected(cfg: Config) | Parsed(cfg: Config, message: Message)

  datatype Event =
    | Iteration(now: int, line: Input, datagram: Option<Datagram>)
    | Quit(cfg: Config)

  /** Encode and send the user's message, then note the ID it was given. */
  function TakeLine(line: Input, c: Client): Client {
    match line
    case NoLine => c
    case Rejected(cfg) => c.(cfg := cfg)
    case Parsed(cfg, message) =>
      var c1 := c.(cfg := cfg, slots := c.slots.(output := message));
      if message.kind == NONE then c1
      else
        var c2 := Transmit(c1, UserLine, message);
        c2.(slots := c2.slots.(output := message.(id := (Counter(c2) + 0xFFFF) % 0x1_0000)))
  }

  /** A malformed datagram is treated as an ERR. */
  function TakeDatagram(datagram: Option<Datagram>, c: Client): Client {
    match datagram
    case None => c
    case Some(d) =>
      var line := UdpDecoder.Decode(d);
      c.(slots := c.slots.(input := if line.kind == ERR_INTERNAL then line.(kind := ERR) else line))
  }

  predicate SlotsPending(s: Slots) {
    (s.input.kind != NONE && s.input.kind != CONFIRM) || s.output.kind != NONE
  }

  /** Let the automaton read a snapshot of the slots; complain about what it leaves unread. */
  function Advance(env: Env, c: Client): Client {
    if c.stack == [] && c.slots.input.kind == NONE && c.slots.output.kind == NONE then c
    else
      var (target, c1) := Next(Wiring(c.state), env, c.slots, c);
      match target
      case Some(s) => c1.(state := s)
      case None => if SlotsPending(c1.slots) then Cleared(c1) else c1
  }

  /** `exit()`: say goodbye; the automaton sees the BYE in the next iteration. */
  function SayGoodbye(c: Client): Client {
    var bye := New(BYE, c.cfg.displayName);
    Transmit(c.(slots := Slots(NOTHING, bye)), Goodbye, bye)
  }

  /** The loop ends in `End`. */
  function Handle(retransmissions: byte, timeout: nat, ev: Event, c: Client): Client {
    if c.state == End then c
    else
      match ev
      case Quit(cfg) => SayGoodbye(c.(cfg := cfg))
      case Iteration(now, line, datagram) =>
        Advance(Env(retransmissions, timeout, now), TakeDatagram(datagram, TakeLine(line, c)))
  }

  /** A parsed line is nothing, or a command or message built by the setters, without an ID. */
  predicate IsEvent(ev: Event) {
    ev.Iteration? && ev.line.Parsed? ==>
      var m := ev.line.message;
      m == NOTHING ||
      (m.kind in {AUTH, JOIN, MSG} && m.id == UNASSIGNED && |m.author| <= MAX_AUTHOR && |m.text| <= MAX_TEXT)
  }

  /** The client after a run. */
  function After(retransmissions: byte, timeout: nat, cfg: Config, run: seq<Event>): Client {
    if run == [] then Initial(cfg)
    else Handle(retransmissions, timeout, run[|run| - 1], After(retransmissions, timeout, cfg, run[..|run| - 1]))
  }

  ghost predicate IsRun(run: seq<Event>) { forall ev :: ev in run ==> IsEvent(ev) }
}
