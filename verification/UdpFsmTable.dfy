/** The automaton as a decision table: trying the wired edges and guards in order is one look-up in it. */
module UdpFsmTable {
  import opened Bytes
  import opened Messages
  import opened UdpFsm

  predicate Any(t: Test, env: Env, c: Client) { FindFirst(c.stack, t, env) < |c.stack| }

  predicate IsFarewell(m: Slots) { m.output.kind == NONE && m.input.kind in {ERR, BYE} }

  predicate IsUserBye(m: Slots) { m.output.kind == BYE && m.input.kind == NONE }

  /** What a transition does to the queue; `Drop` and `Touch` concern the first entry that passes the test. */
  datatype QueueOp = Keep | Push | Erase(t: Test) | Drop(t: Test) | Touch(t: Test)

  datatype Outgoing = Silent | Send(cause: Cause, message: Message)

  /** A row of the table: go to a state, or refuse and perhaps clear the slots all the same. */
  datatype Row = Go(target: State, op: QueueOp, out: Outgoing) | Refuse(clears: bool)

  function Queue(op: QueueOp, env: Env, m: Slots, stack: seq<Entry>): seq<Entry> {
    match op
    case Keep => stack
    case Push => stack + [NewEntry(env, m.output)]
    case Erase(t) => EraseIf(stack, t, env)
    case Drop(t) =>
      var k := FindFirst(stack, t, env);
      if k < |stack| then Dropped(stack, k) else stack
    case Touch(t) =>
      var k := FindFirst(stack, t, env);
      if k < |stack| then stack[k := stack[k].Decremented(env.now)] else stack
  }

  function Post(c: Client, out: Outgoing): Client {
    match out
    case Silent => c
    case Send(cause, message) => Transmit(c, cause, message)
  }

  function Perform(row: Row, env: Env, m: Slots, c: Client): (Option<State>, Client) {
    match row
    case Go(target, op, out) => (Some(target), Cleared(Post(c.(stack := Queue(op, env, m, c.stack)), out)))
    case Refuse(clears) => (None, if clears then Cleared(c) else c)
  }

  // --------------------------------------------------------------------- the table

  function Ack(c: Client, m: Slots): Outgoing { Send(Response, Confirmation(c.cfg, m.input)) }

  /** The message of the first entry that passes the test. */
  function Again(t: Test, env: Env, c: Client): Outgoing {
    var k := FindFirst(c.stack, t, env);
    if k < |c.stack| then Send(Resend, c.stack[k].message) else Silent
  }

  function StartRow(env: Env, m: Slots, c: Client): Row {
    if m.output.kind == AUTH && m.input.kind == NONE && c.stack == [] then Go(Auth, Push, Silent)
    else if IsUserBye(m) then Go(End, Keep, Silent)
    else if IsFarewell(m) then Go(End, Keep, Ack(c, m))
    else Refuse(false)
  }

  function AuthRow(env: Env, m: Slots, c: Client): Row {
    match m.input.kind
    case REPLY =>
      var t := WithId(m.input.refId);
      if !m.input.isOk then Go(Auth, Erase(t), Ack(c, m))
      else if Any(t, env, c) then Go(Open, Drop(t), Ack(c, m))
      else Refuse(false)
    case MSG => Go(End, Keep, Send(Response, New(ERR, c.cfg.displayName)))
    case NONE =>
      if m.output.kind == BYE then Go(End, Keep, Silent)
      else if Any(Exhausted, env, c) then Go(Auth, Erase(Exhausted), Silent)
      else if Any(Expired(AUTH), env, c) then Go(Auth, Touch(Expired(AUTH)), Again(Expired(AUTH), env, c))
      else if c.stack == [] && m.output.kind == AUTH then Go(Auth, Push, Silent)
      else Refuse(true)
    case _ => if IsFarewell(m) then Go(End, Keep, Ack(c, m)) else Refuse(false)
  }

  /** In `Open` a JOIN that can be queued goes first, whatever the input. */
  function OpenRow(env: Env, m: Slots, c: Client): Row {
    if c.stack == [] && m.output.kind == JOIN then Go(Join, Push, Silent)
    else
      match m.input.kind
      case NONE => OpenIdleRow(env, m, c)
      case MSG => Go(Open, Keep, Ack(c, m))
      case PING => Go(Open, Keep, Ack(c, m))
      case kind =>
        var t := WithId(Swap(m.input.id));
        if m.output.kind == MSG then Go(Open, Push, Silent)
        else if kind == CONFIRM then if Any(t, env, c) then Go(Open, Erase(t), Silent) else Refuse(true)
        else if IsFarewell(m) then Go(End, Keep, Ack(c, m))
        else if kind == REPLY && m.input.refId >= Counter(c) then
          Go(End, Keep, Send(Response, New(ERR, c.cfg.displayName).(text := UNEXPECTED_REPLY)))
        else Refuse(false)
  }

  /** Without input: resend the JOIN, sweep, resend a MSG, and only then look at the user. */
  function OpenIdleRow(env: Env, m: Slots, c: Client): Row {
    if Any(Resendable(JOIN), env, c) then Go(Join, Keep, Again(Resendable(JOIN), env, c))
    else if Any(Exhausted, env, c) then Go(Open, Erase(Exhausted), Silent)
    else if Any(Expired(MSG), env, c) then Go(Open, Touch(Expired(MSG)), Again(Expired(MSG), env, c))
    else if m.output.kind == MSG then Go(Open, Push, Silent)
    else if m.output.kind == BYE then Go(End, Keep, Silent)
    else Refuse(true)
  }

  function JoinRow(env: Env, m: Slots, c: Client): Row {
    match m.input.kind
    case MSG => Go(Join, Keep, Ack(c, m))
    case PING => Go(Join, Keep, Ack(c, m))
    case CONFIRM => if Any(WithId(m.input.id), env, c) then Go(Join, Keep, Silent) else Refuse(false)
    case NONE =>
      if Any(Expired(JOIN), env, c) then Go(Open, Touch(Expired(JOIN)), Silent)
      else if m.output.kind == BYE then Go(End, Keep, Silent)
      else Refuse(true)
    case REPLY => if Any(Expired(JOIN), env, c) then Go(Open, Drop(Expired(JOIN)), Ack(c, m)) else Refuse(false)
    case _ => if IsFarewell(m) then Go(End, Keep, Ack(c, m)) else Refuse(false)
  }

  function Table(env: Env, m: Slots, c: Client): Row {
    match c.state
    case Start => StartRow(env, m, c)
    case Auth => AuthRow(env, m, c)
    case Open => OpenRow(env, m, c)
    case Join => JoinRow(env, m, c)
    case End => Refuse(false)
  }

  // ----------------------------------------------------- the wiring is the table

  lemma TryOne(a: Guard, env: Env, m: Slots, c: Client)
    ensures TryGuards([a], env, m, c) == Apply(a, env, m, c)
  {
    assert [a][..0] == [];
  }

  lemma TryMore(guards: seq<Guard>, g: Guard, env: Env, m: Slots, c: Client)
    ensures TryGuards(guards + [g], env, m, c) == OrElse(TryGuards(guards, env, m, c), g, env, m)
  {
    assert (guards + [g])[..|guards|] == guards;
  }

  lemma TryTwo(a: Guard, b: Guard, env: Env, m: Slots, c: Client)
    ensures TryGuards([a, b], env, m, c) == OrElse(Apply(a, env, m, c), b, env, m)
  {
    TryOne(a, env, m, c);
    TryMore([a], b, env, m, c);
    assert [a] + [b] == [a, b];
  }

  lemma TryThree(a: Guard, b: Guard, g: Guard, env: Env, m: Slots, c: Client)
    ensures TryGuards([a, b, g], env, m, c) == OrElse(OrElse(Apply(a, env, m, c), b, env, m), g, env, m)
  {
    TryTwo(a, b, env, m, c);
    TryMore([a, b], g, env, m, c);
    assert [a, b] + [g] == [a, b, g];
  }

  /** The guards of one list, and then those of another. */
  lemma {:induction false} TryConcat(a: seq<Guard>, b: seq<Guard>, env: Env, m: Slots, c: Client)
    ensures var r := TryGuards(a, env, m, c);
            TryGuards(a + b, env, m, c) == if r.0 then r else TryGuards(b, env, m, r.1)
  {
    if b == [] {
      assert a + b == a;
    } else {
      var n := |b| - 1;
      TryConcat(a, b[..n], env, m, c);
      assert (a + b)[..|a + b| - 1] == a + b[..n];
    }
  }

  function OrEdge(r: (Option<State>, Client), e: Edge, env: Env, m: Slots): (Option<State>, Client) {
    if r.0.Some? then r
    else
      var (ok, c2) := TryGuards(e.guards, env, m, r.1);
      (if ok then Some(e.target) else None, c2)
  }

  lemma NextThree(es: seq<Edge>, env: Env, m: Slots, c: Client)
    requires 2 <= |es| <= 3 && forall e :: e in es ==> e.guards != []
    ensures var r := OrEdge(OrEdge((None, c), es[0], env, m), es[1], env, m);
            Next(es, env, m, c) == if |es| == 2 then r else OrEdge(r, es[2], env, m)
  {
    assert es[..1][..0] == [];
    assert es[..2][..1] == es[..1] && es[..2][1] == es[1];
    assert Next(es[..1][..0], env, m, c) == (None, c);
    assert Next(es[..1], env, m, c) == OrEdge((None, c), es[0], env, m);
    assert Next(es[..2], env, m, c) == OrEdge(OrEdge((None, c), es[0], env, m), es[1], env, m);
    if |es| == 2 { assert es[..2] == es; } else { assert es[..3] == es; }
  }

  lemma AnyErases(t: Test, env: Env, c: Client)
    ensures Any(t, env, c) <==> |EraseIf(c.stack, t, env)| < |c.stack|
    ensures !Any(t, env, c) ==> Erased(t, env, c) == Cleared(c)
  {
    var k := FindFirst(c.stack, t, env);
    if k < |c.stack| {
      assert c.stack[k] in c.stack && Holds(t, c.stack[k], env);
    }
  }

  /** The two front pushes happen on an empty queue. */
  lemma FrontIsBack(env: Env, m: Slots, c: Client)
    requires c.stack == []
    ensures PushedFront(env, m, c) == PushedBack(env, m, c)
  {
    assert [NewEntry(env, m.output)] + c.stack == c.stack + [NewEntry(env, m.output)];
  }

  lemma StartTable(env: Env, m: Slots, c: Client)
    requires c.state == Start
    ensures Next(Wiring(Start), env, m, c) == Perform(StartRow(env, m, c), env, m, c)
  {
    var es := Wiring(Start);
    NextThree(es, env, m, c);
    TryOne(QueueAuth, env, m, c);
    TryTwo(UserBye, ConfirmAndEnd, env, m, c);
    if c.stack == [] { FrontIsBack(env, m, c); }
  }

  function AuthEnds(m: Slots, c: Client): (bool, Client) {
    if IsFarewell(m) then (true, Confirmed(c, m.input))
    else if IsUserBye(m) then (true, Cleared(c))
    else if m.input.kind == MSG then (true, Cleared(Transmit(c, Response, New(ERR, c.cfg.displayName))))
    else (false, c)
  }

  lemma FarewellGuards(env: Env, m: Slots, c: Client)
    ensures TryGuards([ConfirmAndEnd, UserBye], env, m, c) ==
            if IsFarewell(m) then (true, Confirmed(c, m.input))
            else if IsUserBye(m) then (true, Cleared(c))
            else (false, c)
  {
    TryTwo(ConfirmAndEnd, UserBye, env, m, c);
  }

  lemma AuthEndsEdge(env: Env, m: Slots, c: Client)
    ensures TryGuards([ConfirmAndEnd, UserBye, EarlyMessage], env, m, c) == AuthEnds(m, c)
  {
    FarewellGuards(env, m, c);
    TryMore([ConfirmAndEnd, UserBye], EarlyMessage, env, m, c);
    assert [ConfirmAndEnd, UserBye] + [EarlyMessage] == [ConfirmAndEnd, UserBye, EarlyMessage];
  }

  function AuthStays(env: Env, m: Slots, c: Client): (bool, Client) {
    if m.input.kind == REPLY && !m.input.isOk then
      (true, Confirmed(c.(stack := EraseIf(c.stack, WithId(m.input.refId), env)), m.input))
    else if m.input.kind != NONE then (false, c)
    else if Any(Exhausted, env, c) then (true, Erased(Exhausted, env, c))
    else if Any(Expired(AUTH), env, c) then Resent(AUTH, env, c)
    else if c.stack == [] && m.output.kind == AUTH then (true, PushedFront(env, m, c))
    else (false, Cleared(c))
  }

  const AUTH_STAYS := [SweepExhausted, ResendAuth, NegativeReply, QueueAuth]

  lemma ResentCleared(kind: MessageType, env: Env, c: Client)
    ensures Resent(kind, env, Cleared(c)) == Resent(kind, env, c)
  {
  }

  /** The two guards that watch the timers, in `Auth` and in `Open`, when nothing has come in. */
  lemma TimersIdle(g: Guard, kind: MessageType, env: Env, m: Slots, c: Client)
    requires (g == ResendAuth && kind == AUTH) || (g == ResendMessage && kind == MSG)
    requires m.input.kind == NONE
    ensures TryGuards([SweepExhausted, g], env, m, c) ==
            if Any(Exhausted, env, c) then (true, Erased(Exhausted, env, c)) else Resent(kind, env, c)
  {
    AnyErases(Exhausted, env, c);
    TryTwo(SweepExhausted, g, env, m, c);
    ResentCleared(kind, env, c);
  }

  lemma TimersBusy(g: Guard, env: Env, m: Slots, c: Client)
    requires (g == ResendAuth || g == ResendMessage) && m.input.kind != NONE
    ensures TryGuards([SweepExhausted, g], env, m, c) == (false, c)
  {
    TryTwo(SweepExhausted, g, env, m, c);
  }

  lemma AuthReads(env: Env, m: Slots, c: Client)
    ensures TryGuards([NegativeReply, QueueAuth], env, m, c) ==
            if m.input.kind == REPLY && !m.input.isOk then
              (true, Confirmed(c.(stack := EraseIf(c.stack, WithId(m.input.refId), env)), m.input))
            else if c.stack == [] && m.output.kind == AUTH && m.input.kind == NONE then (true, PushedFront(env, m, c))
            else (false, c)
  {
    TryTwo(NegativeReply, QueueAuth, env, m, c);
  }

  lemma AuthStaysIdle(env: Env, m: Slots, c: Client)
    requires m.input.kind == NONE
    ensures TryGuards(AUTH_STAYS, env, m, c) == AuthStays(env, m, c)
  {
    var timers := [SweepExhausted, ResendAuth];
    assert AUTH_STAYS == timers + [NegativeReply, QueueAuth];
    TryConcat(timers, [NegativeReply, QueueAuth], env, m, c);
    TimersIdle(ResendAuth, AUTH, env, m, c);
    AuthReads(env, m, TryGuards(timers, env, m, c).1);
  }

  lemma AuthStaysBusy(env: Env, m: Slots, c: Client)
    requires m.input.kind != NONE
    ensures TryGuards(AUTH_STAYS, env, m, c) == AuthStays(env, m, c)
  {
    var timers := [SweepExhausted, ResendAuth];
    assert AUTH_STAYS == timers + [NegativeReply, QueueAuth];
    TryConcat(timers, [NegativeReply, QueueAuth], env, m, c);
    TimersBusy(ResendAuth, env, m, c);
    AuthReads(env, m, c);
  }

  lemma AuthEdges(env: Env, m: Slots, c: Client)
    requires c.state == Auth
    ensures var opens, ends, stays := Apply(PositiveReply, env, m, c), AuthEnds(m, c), AuthStays(env, m, c);
            Next(Wiring(Auth), env, m, c) ==
            if opens.0 then (Some(Open), opens.1)
            else if ends.0 then (Some(End), ends.1)
            else (if stays.0 then Some(Auth) else None, stays.1)
  {
    NextThree(Wiring(Auth), env, m, c);
    TryOne(PositiveReply, env, m, c);
    AuthEndsEdge(env, m, c);
    if m.input.kind == NONE { AuthStaysIdle(env, m, c); } else { AuthStaysBusy(env, m, c); }
  }

  lemma AuthTableIdle(env: Env, m: Slots, c: Client)
    requires c.state == Auth && m.input.kind == NONE
    ensures Next(Wiring(Auth), env, m, c) == Perform(AuthRow(env, m, c), env, m, c)
  {
    AuthEdges(env, m, c);
    if c.stack == [] { FrontIsBack(env, m, c); }
  }

  lemma AuthTableBusy(env: Env, m: Slots, c: Client)
    requires c.state == Auth && m.input.kind != NONE
    ensures Next(Wiring(Auth), env, m, c) == Perform(AuthRow(env, m, c), env, m, c)
  {
    AuthEdges(env, m, c);
  }

  function JoinStays(env: Env, m: Slots, c: Client): (bool, Client) {
    if m.input.kind == MSG || m.input.kind == PING then (true, Confirmed(c, m.input))
    else if m.input.kind == CONFIRM && Any(WithId(m.input.id), env, c) then (true, Cleared(c))
    else (false, c)
  }

  lemma JoinStaysEdge(env: Env, m: Slots, c: Client)
    ensures TryGuards([EchoMessage, EchoPing, JoinConfirmed], env, m, c) == JoinStays(env, m, c)
  {
    TryThree(EchoMessage, EchoPing, JoinConfirmed, env, m, c);
  }

  lemma LeavesEdge(env: Env, m: Slots, c: Client)
    ensures TryGuards([UserBye, ConfirmAndEnd], env, m, c) ==
            if IsUserBye(m) then (true, Cleared(c))
            else if IsFarewell(m) then (true, Confirmed(c, m.input))
            else (false, c)
  {
    TryTwo(UserBye, ConfirmAndEnd, env, m, c);
  }

  function JoinOpens(env: Env, m: Slots, c: Client): (bool, Client) {
    var k := FindFirst(c.stack, Expired(JOIN), env);
    if m.input.kind == NONE then
      if k < |c.stack| then (true, Cleared(c.(stack := c.stack[k := c.stack[k].Decremented(env.now)])))
      else (false, Cleared(c))
    else if m.input.kind == REPLY && k < |c.stack| then
      (true, Confirmed(c, m.input).(stack := Dropped(c.stack, k)))
    else (false, c)
  }

  lemma JoinOpensEdge(env: Env, m: Slots, c: Client)
    ensures TryGuards([JoinTimeout, JoinReply], env, m, c) == JoinOpens(env, m, c)
  {
    TryTwo(JoinTimeout, JoinReply, env, m, c);
  }

  lemma JoinEdges(env: Env, m: Slots, c: Client)
    requires c.state == Join
    ensures var stays, opens := JoinStays(env, m, c), JoinOpens(env, m, c);
            Next(Wiring(Join), env, m, c) ==
            if stays.0 then (Some(Join), stays.1)
            else if opens.0 then (Some(Open), opens.1)
            else if IsUserBye(m) then (Some(End), Cleared(opens.1))
            else if IsFarewell(m) then (Some(End), Confirmed(opens.1, m.input))
            else (None, opens.1)
  {
    NextThree(Wiring(Join), env, m, c);
    JoinStaysEdge(env, m, c);
    JoinOpensEdge(env, m, c);
    LeavesEdge(env, m, JoinOpens(env, m, c).1);
  }

  lemma JoinTable(env: Env, m: Slots, c: Client)
    requires c.state == Join
    ensures Next(Wiring(Join), env, m, c) == Perform(JoinRow(env, m, c), env, m, c)
  {
    JoinEdges(env, m, c);
  }

  function OpenStays(env: Env, m: Slots, c: Client): (bool, Client) {
    match m.input.kind
    case NONE =>
      if Any(Exhausted, env, c) then (true, Erased(Exhausted, env, c))
      else if Any(Expired(MSG), env, c) then Resent(MSG, env, c)
      else if m.output.kind == MSG then (true, PushedBack(env, m, c))
      else (false, Cleared(c))
    case MSG => (true, Confirmed(c, m.input))
    case PING => (true, Confirmed(c, m.input))
    case kind =>
      if m.output.kind == MSG then (true, PushedBack(env, m, c))
      else if kind == CONFIRM then
        (Any(WithId(Swap(m.input.id)), env, c), Erased(WithId(Swap(m.input.id)), env, c))
      else (false, c)
  }

  const OPEN_STAYS := [SweepExhausted, ResendMessage, EchoMessage, EchoPing, QueueMessage, Acknowledge]

  /** The first two guards watch the timers, the other four read the slots. */
  lemma OpenTimers(env: Env, m: Slots, c: Client)
    ensures TryGuards([SweepExhausted, ResendMessage], env, m, c) ==
            if m.input.kind != NONE then (false, c)
            else if Any(Exhausted, env, c) then (true, Erased(Exhausted, env, c))
            else Resent(MSG, env, c)
  {
    if m.input.kind == NONE {
      TimersIdle(ResendMessage, MSG, env, m, c);
    } else {
      TimersBusy(ResendMessage, env, m, c);
    }
  }

  function OpenReads(env: Env, m: Slots, c: Client): (bool, Client) {
    if m.input.kind == MSG || m.input.kind == PING then (true, Confirmed(c, m.input))
    else if m.output.kind == MSG then (true, PushedBack(env, m, c))
    else if m.input.kind == CONFIRM then
      (Any(WithId(Swap(m.input.id)), env, c), Erased(WithId(Swap(m.input.id)), env, c))
    else (false, c)
  }

  lemma EchoGuards(env: Env, m: Slots, c: Client)
    ensures TryGuards([EchoMessage, EchoPing], env, m, c) ==
            if m.input.kind == MSG || m.input.kind == PING then (true, Confirmed(c, m.input)) else (false, c)
  {
    TryTwo(EchoMessage, EchoPing, env, m, c);
  }

  lemma QueueGuards(env: Env, m: Slots, c: Client)
    ensures TryGuards([QueueMessage, Acknowledge], env, m, c) ==
            if m.output.kind == MSG then (true, PushedBack(env, m, c))
            else if m.input.kind == CONFIRM then
              (Any(WithId(Swap(m.input.id)), env, c), Erased(WithId(Swap(m.input.id)), env, c))
            else (false, c)
  {
    AnyErases(WithId(Swap(m.input.id)), env, c);
    TryTwo(QueueMessage, Acknowledge, env, m, c);
  }

  lemma OpenReadsGuards(env: Env, m: Slots, c: Client)
    ensures TryGuards([EchoMessage, EchoPing, QueueMessage, Acknowledge], env, m, c) == OpenReads(env, m, c)
  {
    assert [EchoMessage, EchoPing, QueueMessage, Acknowledge] == [EchoMessage, EchoPing] + [QueueMessage, Acknowledge];
    TryConcat([EchoMessage, EchoPing], [QueueMessage, Acknowledge], env, m, c);
    EchoGuards(env, m, c);
    QueueGuards(env, m, c);
  }

  lemma OpenStaysEdge(env: Env, m: Slots, c: Client)
    ensures TryGuards(OPEN_STAYS, env, m, c) == OpenStays(env, m, c)
  {
    var timers, slotGuards := [SweepExhausted, ResendMessage], [EchoMessage, EchoPing, QueueMessage, Acknowledge];
    assert OPEN_STAYS == timers + slotGuards;
    TryConcat(timers, slotGuards, env, m, c);
    OpenTimers(env, m, c);
    OpenReadsGuards(env, m, TryGuards(timers, env, m, c).1);
  }

  function OpenJoins(env: Env, m: Slots, c: Client): (bool, Client) {
    var k := FindFirst(c.stack, Resendable(JOIN), env);
    if c.stack == [] && m.output.kind == JOIN then (true, PushedFront(env, m, c))
    else if m.input.kind == NONE && k < |c.stack| then (true, Cleared(Transmit(c, Resend, c.stack[k].message)))
    else (false, c)
  }

  lemma OpenJoinsEdge(env: Env, m: Slots, c: Client)
    ensures TryGuards([QueueJoin, ResendJoin], env, m, c) == OpenJoins(env, m, c)
  {
    TryTwo(QueueJoin, ResendJoin, env, m, c);
  }

  function OpenEnds(m: Slots, c: Client): (bool, Client) {
    if IsFarewell(m) then (true, Confirmed(c, m.input))
    else if IsUserBye(m) then (true, Cleared(c))
    else if m.input.kind == REPLY && m.input.refId >= Counter(c) then
      (true, Cleared(Transmit(c, Response, New(ERR, c.cfg.displayName).(text := UNEXPECTED_REPLY))))
    else (false, c)
  }

  lemma OpenEndsEdge(env: Env, m: Slots, c: Client)
    ensures TryGuards([ConfirmAndEnd, UserBye, UnsolicitedReply], env, m, c) == OpenEnds(m, c)
  {
    FarewellGuards(env, m, c);
    TryMore([ConfirmAndEnd, UserBye], UnsolicitedReply, env, m, c);
    assert [ConfirmAndEnd, UserBye] + [UnsolicitedReply] == [ConfirmAndEnd, UserBye, UnsolicitedReply];
  }

  lemma OpenEdges(env: Env, m: Slots, c: Client)
    requires c.state == Open
    ensures var joins, stays := OpenJoins(env, m, c), OpenStays(env, m, c);
            Next(Wiring(Open), env, m, c) ==
            if joins.0 then (Some(Join), joins.1)
            else if stays.0 then (Some(Open), stays.1)
            else
              var ends := OpenEnds(m, stays.1);
              (if ends.0 then Some(End) else None, ends.1)
  {
    NextThree(Wiring(Open), env, m, c);
    OpenJoinsEdge(env, m, c);
    OpenStaysEdge(env, m, c);
    OpenEndsEdge(env, m, OpenStays(env, m, c).1);
  }

  lemma OpenTableIdle(env: Env, m: Slots, c: Client)
    requires c.state == Open && m.input.kind == NONE
    ensures Next(Wiring(Open), env, m, c) == Perform(OpenRow(env, m, c), env, m, c)
  {
    OpenEdges(env, m, c);
    if c.stack == [] { FrontIsBack(env, m, c); }
  }

  lemma OpenTableConfirm(env: Env, m: Slots, c: Client)
    requires c.state == Open && m.input.kind == CONFIRM
    ensures Next(Wiring(Open), env, m, c) == Perform(OpenRow(env, m, c), env, m, c)
  {
    OpenEdges(env, m, c);
    if c.stack == [] { FrontIsBack(env, m, c); }
    AnyErases(WithId(Swap(m.input.id)), env, c);
  }

  lemma OpenTableBusy(env: Env, m: Slots, c: Client)
    requires c.state == Open && m.input.kind != NONE && m.input.kind != CONFIRM
    ensures Next(Wiring(Open), env, m, c) == Perform(OpenRow(env, m, c), env, m, c)
  {
    OpenEdges(env, m, c);
    if c.stack == [] { FrontIsBack(env, m, c); }
  }

  /** Trying every edge and guard in its wired order is one look-up in the table. */
  lemma WiringIsTable(env: Env, m: Slots, c: Client)
    ensures Next(Wiring(c.state), env, m, c) == Perform(Table(env, m, c), env, m, c)
  {
    match c.state
    case Start => StartTable(env, m, c);
    case Auth => if m.input.kind == NONE { AuthTableIdle(env, m, c); } else { AuthTableBusy(env, m, c); }
    case Open =>
      if m.input.kind == NONE { OpenTableIdle(env, m, c); }
      else if m.input.kind == CONFIRM { OpenTableConfirm(env, m, c); }
      else { OpenTableBusy(env, m, c); }
    case Join => JoinTable(env, m, c);
    case End =>
  }
}
