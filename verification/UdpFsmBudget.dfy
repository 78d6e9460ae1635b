/** Message IDs and retransmission budgets over whole runs, until the ID 65535 ("assign one") is drawn. */
module UdpFsmBudget {
  import opened Bytes
  import opened Messages
  import opened UdpEncoder
  import opened UdpFsm
  import opened UdpFsmTable
  import opened UdpFsmQueue

  // ------------------------------------------------------------------ sorted IDs

  /** The output slot holds a message that was sent and may now be queued. */
  predicate Pending(s: Slots) { s.output.kind in {AUTH, JOIN, MSG} }

  /** All queued IDs are below this. */
  function Limit(c: Client): nat { if Pending(c.slots) && c.issued > 0 then c.issued - 1 else c.issued }

  predicate NoWrap(c: Client) { c.issued <= 0xFFFF }

  predicate Ordered(c: Client) {
    NoWrap(c) ==>
      SortedBelow(c.stack, Limit(c)) &&
      (Pending(c.slots) ==> c.issued > 0 && c.slots.output.id == c.issued - 1)
  }

  lemma TakeLineCases(line: Input, c: Client)
    requires SlotsRead(c) && IsEvent(Iteration(0, line, None))
    ensures var c1 := TakeLine(line, c);
            && c1.state == c.state && c1.stack == c.stack && c1.slots.input == c.slots.input
            && (Pending(c1.slots) <==> line.Parsed? && line.message != NOTHING)
            && (if Pending(c1.slots) then
                  && c1.issued == c.issued + 1
                  && c1.sent == c.sent + [Sent(UserLine, line.message, c.issued % 0x1_0000,
                                               Encode(line.message, line.cfg, c.issued % 0x1_0000))]
                  && c1.slots.output == line.message.(id := c.issued % 0x1_0000)
                else c1.issued == c.issued && c1.sent == c.sent)
  {
    if line.Parsed? && line.message != NOTHING { PreviousId(c.issued); }
  }

  /** `getID() - 1` right after drawing an ID is that ID. */
  lemma PreviousId(issued: nat)
    ensures ((issued + 1) % 0x1_0000 + 0xFFFF) % 0x1_0000 == issued % 0x1_0000
  {
  }

  /** Drawing an ID for the message in the output slot keeps the order. */
  lemma DrawKeepsOrdered(c: Client, c1: Client)
    requires Ordered(c) && !Pending(c.slots) && c1.stack == c.stack
    requires if Pending(c1.slots) then c1.issued == c.issued + 1 && c1.slots.output.id == c.issued % 0x1_0000
             else c1.issued == c.issued
    ensures Ordered(c1)
  {
    assert Limit(c1) == Limit(c);
  }

  lemma TakeLineOrdered(line: Input, c: Client)
    requires SlotsRead(c) && IsEvent(Iteration(0, line, None)) && Ordered(c)
    ensures Ordered(TakeLine(line, c))
  {
    TakeLineCases(line, c);
    DrawKeepsOrdered(c, TakeLine(line, c));
  }

  lemma OpKeepsSorted(op: QueueOp, env: Env, m: Slots, stack: seq<Entry>, n: nat)
    requires SortedBelow(stack, n) && !op.Push?
    ensures SortedBelow(Queue(op, env, m, stack), n)
  {
    match op
    case Erase(t) => EraseKeepsOrder(stack, t, env, n);
    case Drop(t) =>
      var k := FindFirst(stack, t, env);
      if k < |stack| { DropKeepsOrder(stack, k, n); }
    case _ =>
  }

  lemma PushNeedsPending(env: Env, c: Client)
    ensures var row := Table(env, c.slots, c); row.Go? && row.op.Push? ==> Pending(c.slots)
  {
  }

  lemma AdvanceKeepsOrdered(env: Env, c: Client)
    requires Ordered(c)
    ensures Ordered(Advance(env, c)) && Advance(env, c).issued >= c.issued
    ensures !Pending(Advance(env, c).slots)
  {
    AdvanceIsTable(env, c);
    SlotsAfterAdvance(env, c);
    PushNeedsPending(env, c);
    var row := Table(env, c.slots, c);
    if row.Go? && NoWrap(c) && !row.op.Push? {
      OpKeepsSorted(row.op, env, c.slots, c.stack, Limit(c));
    }
  }

  lemma IterationKeepsOrdered(r: byte, timeout: nat, ev: Event, c: Client)
    requires IsEvent(ev) && SlotsRead(c) && Ordered(c)
    ensures Ordered(Handle(r, timeout, ev, c)) && Handle(r, timeout, ev, c).issued >= c.issued
  {
    if c.state != End && ev.Iteration? {
      TakeLineCases(ev.line, c);
      TakeLineOrdered(ev.line, c);
      AdvanceKeepsOrdered(Env(r, timeout, ev.now), TakeDatagram(ev.datagram, TakeLine(ev.line, c)));
    }
  }

  /** The queue is strictly increasing in message ID, below the encoder's counter, in every run. */
  lemma {:induction false} SortedIds(r: byte, timeout: nat, cfg: Config, run: seq<Event>)
    requires IsRun(run)
    ensures Ordered(After(r, timeout, cfg, run))
    ensures NoWrap(After(r, timeout, cfg, run)) ==>
            SortedBelow(After(r, timeout, cfg, run).stack, After(r, timeout, cfg, run).issued)
  {
    SlotsAlwaysRead(r, timeout, cfg, run);
    if run != [] {
      var before, ev := run[..|run| - 1], run[|run| - 1];
      SortedIds(r, timeout, cfg, before);
      SlotsAlwaysRead(r, timeout, cfg, before);
      IterationKeepsOrdered(r, timeout, ev, After(r, timeout, cfg, before));
    }
  }

  // --------------------------------------------------------------------- budgets

  /** How often messages of a kind were resent under an ID. */
  function Resends(sent: seq<Sent>, kind: MessageType, id: uint16): nat {
    if sent == [] then 0
    else
      var last := sent[|sent| - 1];
      Resends(sent[..|sent| - 1], kind, id) +
      if last.cause == Resend && last.message.kind == kind && last.id == id then 1 else 0
  }

  lemma ResendsAppend(sent: seq<Sent>, x: Sent, kind: MessageType, id: uint16)
    ensures Resends(sent + [x], kind, id) ==
            Resends(sent, kind, id) + if x.cause == Resend && x.message.kind == kind && x.id == id then 1 else 0
  {
    assert (sent + [x])[..|sent|] == sent;
  }

  /** The most often a message of a kind is resent. */
  function Cap(r: byte, kind: MessageType): nat { if kind == JOIN && r > 0 then r - 1 else r }

  /** Resends so far and budget left add up to this; a JOIN in `Open` has lost the try it is about to use. */
  function Share(r: byte, state: State, kind: MessageType): nat { if state == Join then r else Cap(r, kind) }

  predicate Balanced(r: byte, state: State, sent: seq<Sent>, e: Entry) {
    && Resends(sent, e.message.kind, e.message.id) + e.retransmissions == Share(r, state, e.message.kind)
    && (e.message.kind == JOIN && state == Join && r > 0 ==> e.retransmissions > 0)
  }

  predicate Accounts(r: byte, state: State, stack: seq<Entry>, sent: seq<Sent>) {
    forall e :: e in stack ==> Balanced(r, state, sent, e)
  }

  ghost predicate Capped(r: byte, c: Client) {
    && (forall kind, id: uint16 :: Resends(c.sent, kind, id) <= Cap(r, kind))
    && (forall kind, id: uint16 :: id >= Limit(c) ==> Resends(c.sent, kind, id) == 0)
  }

  ghost predicate InBudget(r: byte, c: Client) {
    NoWrap(c) ==> Capped(r, c) && (c.state != End ==> Accounts(r, c.state, c.stack, c.sent))
  }

  lemma PostQuiet(c: Client, out: Outgoing)
    requires out.Silent? || out.cause != Resend
    ensures forall kind, id: uint16 :: Resends(Post(c, out).sent, kind, id) == Resends(c.sent, kind, id)
  {
    if out.Send? {
      forall kind, id: uint16 ensures Resends(Post(c, out).sent, kind, id) == Resends(c.sent, kind, id) {
        ResendsAppend(c.sent, Post(c, out).sent[|c.sent|], kind, id);
      }
    }
  }

  /** Exactly one resend has been added, under the ID of `m`. */
  ghost predicate OneMore(sent: seq<Sent>, after: seq<Sent>, m: Message) {
    forall kind, id: uint16 :: Resends(after, kind, id) ==
      Resends(sent, kind, id) + if kind == m.kind && id == m.id then 1 else 0
  }

  lemma PostResend(c: Client, m: Message)
    requires m.id != UNASSIGNED
    ensures var c1 := Post(c, Send(Resend, m));
            c1.issued == c.issued && OneMore(c.sent, c1.sent, m)
  {
    var c1 := Post(c, Send(Resend, m));
    forall kind, id: uint16
      ensures Resends(c1.sent, kind, id) == Resends(c.sent, kind, id) + if kind == m.kind && id == m.id then 1 else 0
    {
      ResendsAppend(c.sent, c1.sent[|c.sent|], kind, id);
    }
  }

  predicate IsResend(row: Row) { row.Go? && row.out.Send? && row.out.cause == Resend }

  /** A resent message is that of a queued entry with budget left. */
  predicate ResendsEntry(row: Row, env: Env, c: Client, k: nat) {
    && row.Go? && k < |c.stack| && c.stack[k].retransmissions > 0
    && row.out == Send(Resend, c.stack[k].message)
    && ((row.op == Keep && c.state == Open && row.target == Join && c.stack[k].message.kind == JOIN) ||
        (row.target == c.state && c.stack[k].message.kind != JOIN &&
         Queue(row.op, env, c.slots, c.stack) == c.stack[k := c.stack[k].Decremented(env.now)]))
  }

  lemma NoneExhausted(env: Env, c: Client, k: nat)
    requires !Any(Exhausted, env, c) && k < |c.stack|
    ensures c.stack[k].retransmissions > 0
  {
    assert !Holds(Exhausted, c.stack[k], env);
  }

  lemma ResendRow(env: Env, c: Client) returns (k: nat)
    requires IsResend(Table(env, c.slots, c))
    ensures ResendsEntry(Table(env, c.slots, c), env, c, k)
  {
    if c.state == Auth {
      k := FindFirst(c.stack, Expired(AUTH), env);
      NoneExhausted(env, c, k);
    } else if Any(Resendable(JOIN), env, c) {
      k := FindFirst(c.stack, Resendable(JOIN), env);
    } else {
      k := FindFirst(c.stack, Expired(MSG), env);
      NoneExhausted(env, c, k);
    }
  }

  lemma DistinctIds(stack: seq<Entry>, n: nat, i: nat, j: nat)
    requires SortedBelow(stack, n) && i < |stack| && j < |stack| && i != j
    ensures stack[i].message.id != stack[j].message.id
  {
    if i < j { assert stack[i].message.id < stack[j].message.id; }
    else { assert stack[j].message.id < stack[i].message.id; }
  }

  /** A resent entry moves a unit from its budget to the count, at once or by the JOIN timeout to come. */
  lemma ResentBalances(r: byte, state: State, target: State, sent: seq<Sent>, after: seq<Sent>, e: Entry, now: int)
    requires Balanced(r, state, sent, e) && e.retransmissions > 0
    requires Resends(after, e.message.kind, e.message.id) == Resends(sent, e.message.kind, e.message.id) + 1
    ensures e.message.kind != JOIN && target == state ==> Balanced(r, target, after, e.Decremented(now))
    ensures e.message.kind == JOIN && state == Open && target == Join ==> Balanced(r, target, after, e)
  {
  }

  /** After a resend every entry still balances. */
  lemma ResendBalances(r: byte, env: Env, c: Client, k: nat)
    requires var row := Table(env, c.slots, c); row.Go? && ResendsEntry(row, env, c, k)
    requires Shape(c) && Ordered(c) && NoWrap(c) && Capped(r, c) && Accounts(r, c.state, c.stack, c.sent)
    ensures var row := Table(env, c.slots, c);
            var queue := Queue(row.op, env, c.slots, c.stack);
            var c1 := Post(c.(stack := queue), row.out);
            Accounts(r, row.target, queue, c1.sent) && Capped(r, c1)
  {
    var row := Table(env, c.slots, c);
    var queue := Queue(row.op, env, c.slots, c.stack);
    ResendAccounts(r, env, c, k, row.target, queue);
  }

  /** The queue after the row of a resend. */
  predicate IsResentQueue(env: Env, c: Client, k: nat, target: State, queue: seq<Entry>)
    requires k < |c.stack|
  {
    if c.stack[k].message.kind == JOIN then queue == c.stack && c.state == Open && target == Join
    else target == c.state && queue == c.stack[k := c.stack[k].Decremented(env.now)]
  }

  lemma QueueBalances(r: byte, env: Env, c: Client, k: nat, target: State, queue: seq<Entry>, after: seq<Sent>)
    requires k < |c.stack| && c.stack[k].retransmissions > 0 && IsResentQueue(env, c, k, target, queue)
    requires Shape(c) && SortedBelow(c.stack, Limit(c)) && Accounts(r, c.state, c.stack, c.sent)
    requires OneMore(c.sent, after, c.stack[k].message)
    ensures Accounts(r, target, queue, after)
  {
    var e := c.stack[k];
    assert Balanced(r, c.state, c.sent, e);
    ResentBalances(r, c.state, target, c.sent, after, e, env.now);
    forall x | x in queue ensures Balanced(r, target, after, x) {
      var j :| 0 <= j < |queue| && queue[j] == x;
      if j != k {
        assert Balanced(r, c.state, c.sent, c.stack[j]);
        DistinctIds(c.stack, Limit(c), j, k);
      }
    }
  }

  lemma ResendAccounts(r: byte, env: Env, c: Client, k: nat, target: State, queue: seq<Entry>)
    requires k < |c.stack| && c.stack[k].retransmissions > 0 && IsResentQueue(env, c, k, target, queue)
    requires Shape(c) && Ordered(c) && NoWrap(c) && Capped(r, c) && Accounts(r, c.state, c.stack, c.sent)
    ensures var c1 := Post(c.(stack := queue), Send(Resend, c.stack[k].message));
            Accounts(r, target, queue, c1.sent) && Capped(r, c1)
  {
    var e := c.stack[k];
    PostResend(c.(stack := queue), e.message);
    assert Balanced(r, c.state, c.sent, e);
    QueueBalances(r, env, c, k, target, queue, Post(c.(stack := queue), Send(Resend, e.message)).sent);
  }

  /** A pushed entry has its full budget, and nothing was ever resent under its ID. */
  lemma PushedBalances(r: byte, env: Env, c: Client, target: State)
    requires env.retransmissions == r && Pending(c.slots)
    requires Ordered(c) && NoWrap(c) && Capped(r, c)
    requires c.slots.output.kind == JOIN ==> target == Join
    ensures Balanced(r, target, c.sent, NewEntry(env, c.slots.output))
  {
    assert Resends(c.sent, c.slots.output.kind, c.slots.output.id) == 0;
  }

  /** Rows that resend nothing and stay in their state keep a part of the queue or push an entry. */
  lemma StayBalances(r: byte, env: Env, c: Client)
    requires env.retransmissions == r
    requires var row := Table(env, c.slots, c); row.Go? && !IsResend(row) && row.target == c.state
    requires Ordered(c) && NoWrap(c) && Capped(r, c) && Accounts(r, c.state, c.stack, c.sent)
    ensures Accounts(r, c.state, Queue(Table(env, c.slots, c).op, env, c.slots, c.stack), c.sent)
  {
    var op := Table(env, c.slots, c).op;
    assert op.Keep? || op.Erase? || op.Push?;
    if op.Push? {
      PushNeedsPending(env, c);
      PushedBalances(r, env, c, c.state);
    }
  }

  /** A JOIN that times out loses one try; one that is answered leaves. */
  lemma JoinLeavesBalanced(r: byte, env: Env, c: Client)
    requires var row := Table(env, c.slots, c); row.Go? && c.state == Join && row.target == Open
    requires Shape(c) && Accounts(r, Join, c.stack, c.sent)
    ensures Accounts(r, Open, Queue(Table(env, c.slots, c).op, env, c.slots, c.stack), c.sent)
  {
    var op := Table(env, c.slots, c).op;
    var k := FindFirst(c.stack, Expired(JOIN), env);
    assert op == Touch(Expired(JOIN)) || op == Drop(Expired(JOIN));
    assert k == 0;
    var queue := Queue(op, env, c.slots, c.stack);
    assert Balanced(r, Join, c.sent, c.stack[0]);
    forall j | 0 <= j < |queue| ensures Balanced(r, Open, c.sent, queue[j]) {
      var i := if op.Drop? then j + 1 else j;
      assert Balanced(r, Join, c.sent, c.stack[i]);
    }
  }

  lemma MoveBalances(r: byte, env: Env, c: Client)
    requires env.retransmissions == r
    requires var row := Table(env, c.slots, c);
             row.Go? && !IsResend(row) && row.target != c.state && row.target != End
    requires Shape(c) && Ordered(c) && NoWrap(c) && Capped(r, c) && Accounts(r, c.state, c.stack, c.sent)
    ensures var row := Table(env, c.slots, c);
            Accounts(r, row.target, Queue(row.op, env, c.slots, c.stack), c.sent)
  {
    var row := Table(env, c.slots, c);
    if c.state == Join {
      JoinLeavesBalanced(r, env, c);
    } else if c.state == Auth {
      AuthShape(env, c);
    } else {
      assert row.op == Push && c.stack == [];
      PushNeedsPending(env, c);
      PushedBalances(r, env, c, row.target);
    }
  }

  lemma CappedAfterQuiet(r: byte, c: Client, queue: seq<Entry>, out: Outgoing)
    requires Capped(r, c) && (out.Silent? || out.cause != Resend)
    ensures var c1 := Post(c.(stack := queue), out);
            (forall kind, id: uint16 :: Resends(c1.sent, kind, id) <= Cap(r, kind)) &&
            (forall kind, id: uint16 :: id >= c1.issued ==> Resends(c1.sent, kind, id) == 0)
  {
    PostQuiet(c.(stack := queue), out);
  }

  lemma AdvanceInBudget(r: byte, env: Env, c: Client)
    requires env.retransmissions == r && Shape(c) && Ordered(c) && InBudget(r, c) && c.state != End
    ensures InBudget(r, Advance(env, c))
  {
    AdvanceIsTable(env, c);
    SlotsAfterAdvance(env, c);
    AdvanceKeepsOrdered(env, c);
    var row, c1 := Table(env, c.slots, c), Advance(env, c);
    if NoWrap(c1) && row.Go? {
      var queue := Queue(row.op, env, c.slots, c.stack);
      assert c1.sent == Post(c.(stack := queue), row.out).sent;
      if IsResend(row) {
        var k := ResendRow(env, c);
        ResendBalances(r, env, c, k);
      } else {
        QuietInBudget(r, env, c);
      }
    }
  }

  /** Rows that resend nothing. */
  lemma QuietInBudget(r: byte, env: Env, c: Client)
    requires env.retransmissions == r && Shape(c) && Ordered(c) && InBudget(r, c) && c.state != End && NoWrap(c)
    requires var row := Table(env, c.slots, c); row.Go? && !IsResend(row)
    ensures var row := Table(env, c.slots, c); var queue := Queue(row.op, env, c.slots, c.stack);
            var c1 := Post(c.(stack := queue), row.out);
            && (row.target != End ==> Accounts(r, row.target, queue, c1.sent))
            && (forall kind, id: uint16 :: Resends(c1.sent, kind, id) <= Cap(r, kind))
            && (forall kind, id: uint16 :: id >= c1.issued ==> Resends(c1.sent, kind, id) == 0)
  {
    var row := Table(env, c.slots, c);
    var queue := Queue(row.op, env, c.slots, c.stack);
    CappedAfterQuiet(r, c, queue, row.out);
    PostQuiet(c.(stack := queue), row.out);
    if row.target == c.state {
      StayBalances(r, env, c);
    } else if row.target != End {
      MoveBalances(r, env, c);
    }
  }

  lemma TakeLineInBudget(r: byte, line: Input, c: Client)
    requires SlotsRead(c) && IsEvent(Iteration(0, line, None)) && InBudget(r, c)
    ensures InBudget(r, TakeLine(line, c))
  {
    TakeLineCases(line, c);
    var c1 := TakeLine(line, c);
    if Pending(c1.slots) {
      forall kind, id: uint16 ensures Resends(c1.sent, kind, id) == Resends(c.sent, kind, id) {
        ResendsAppend(c.sent, c1.sent[|c.sent|], kind, id);
      }
    }
  }

  lemma GoodbyeInBudget(r: byte, c: Client)
    requires SlotsRead(c) && InBudget(r, c)
    ensures InBudget(r, SayGoodbye(c))
  {
    var bye := New(BYE, c.cfg.displayName);
    PostQuiet(c.(slots := Slots(NOTHING, bye)), Send(Goodbye, bye));
  }

  /**
   * Budget conservation: in every reachable state, resends so far and budget left add
   * up to the configured number for each queued AUTH and MSG (for a JOIN, to one less
   * while the client is in `Open`), so over the whole run no AUTH or MSG is resent more
   * often than configured and no JOIN more often than one less.
   */
  lemma {:induction false} BudgetConservation(r: byte, timeout: nat, cfg: Config, run: seq<Event>)
    requires IsRun(run)
    ensures InBudget(r, After(r, timeout, cfg, run))
  {
    if run != [] {
      var before, ev := run[..|run| - 1], run[|run| - 1];
      var c := After(r, timeout, cfg, before);
      BudgetConservation(r, timeout, cfg, before);
      SlotsAlwaysRead(r, timeout, cfg, before);
      QueueShape(r, timeout, cfg, before);
      SortedIds(r, timeout, cfg, before);
      HandleInBudget(r, timeout, ev, c);
    }
  }

  lemma HandleInBudget(r: byte, timeout: nat, ev: Event, c: Client)
    requires IsEvent(ev) && SlotsRead(c) && Shape(c) && Ordered(c) && InBudget(r, c)
    ensures InBudget(r, Handle(r, timeout, ev, c))
  {
    if c.state != End {
      match ev
      case Quit(cfg) => GoodbyeInBudget(r, c.(cfg := cfg));
      case Iteration(now, line, datagram) =>
        TakeLineCases(line, c);
        TakeLineOrdered(line, c);
        TakeLineInBudget(r, line, c);
        AdvanceInBudget(r, Env(r, timeout, now), TakeDatagram(datagram, TakeLine(line, c)));
    }
  }
}
