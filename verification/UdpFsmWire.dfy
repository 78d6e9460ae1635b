/** The automaton and the codec together: what a datagram from the server does. */
module UdpFsmWire {
  import opened Bytes
  import opened Messages
  import opened UdpEncoder
  import opened UdpFsm
  import opened UdpFsmTable
  import opened UdpFsmQueue
  import opened UdpFsmBudget
  import UdpDecoder

  /** The ID of a decoded message is the big-endian word of the two bytes after its type. */
  lemma DecodedHeader(d: Datagram)
    requires UdpDecoder.Decode(d).kind != ERR_INTERNAL
    ensures |d| >= 3 && UdpDecoder.Decode(d).kind.Code() == d[0] && UdpDecoder.Decode(d).id == Word(d[1], d[2])
  {
    UdpDecoder.DecoderLanguage(d, UdpDecoder.Decode(d));
    var p :| UdpDecoder.WellFormed(p) && UdpDecoder.Serialise(p) <= d && UdpDecoder.Fits(p) &&
             UdpDecoder.Meaning(p) == UdpDecoder.Decode(d);
    UdpDecoder.PrefixParts(d, p);
    WordParts(High(p.id), Low(p.id));
  }

  /** Three bytes starting with zero are a CONFIRM, whatever follows them. */
  lemma ConfirmDecodes(a: byte, b: byte, rest: bytes)
    requires |rest| < 0x1_0000 - 3
    ensures UdpDecoder.Decode([CONFIRM.Code(), a, b] + rest) == Message(CONFIRM, [], [], false, Word(a, b), 0)
  {
    var d, p := [CONFIRM.Code(), a, b] + rest, UdpDecoder.Packet(CONFIRM, Word(a, b), false, 0, []);
    WordParts(a, b);
    assert UdpDecoder.Serialise(p) == [CONFIRM.Code(), a, b];
    UdpDecoder.DecodesPacket(UdpDecoder.FRESH, d, p);
  }

  /** Exactly one more datagram, the CONFIRM of an ID. */
  predicate SentConfirm(before: seq<Sent>, after: seq<Sent>, id: uint16) {
    |after| == |before| + 1 && after[..|before|] == before && after[|before|].data == [0, High(id), Low(id)]
  }

  lemma ConfirmBytes(c: Client, m: Message)
    ensures SentConfirm(c.sent, Confirmed(c, m).sent, m.id)
  {
    var confirm := Confirmation(c.cfg, m);
    assert Encode(confirm, c.cfg, IdFor(confirm, c.issued)) == [0, High(m.id), Low(m.id)];
  }

  /** What the table says to a MSG or a PING. */
  lemma EchoRow(env: Env, c: Client)
    requires c.state == Open || c.state == Join
    requires (c.slots.input.kind == MSG || c.slots.input.kind == PING) && c.slots.output.kind != JOIN
    ensures Table(env, c.slots, c) == Go(c.state, Keep, Send(Response, Confirmation(c.cfg, c.slots.input)))
  {
  }

  /**
   * Confirm echo: in `Open` and `Join` every well-formed MSG or PING is answered by
   * exactly one datagram, a zero byte and the two ID bytes as they came.
   */
  lemma ConfirmEcho(r: byte, timeout: nat, now: int, c: Client, d: Datagram)
    requires c.state in {Open, Join} && SlotsRead(c)
    requires UdpDecoder.Decode(d).kind in {MSG, PING}
    ensures |d| >= 3
    ensures var c1 := Handle(r, timeout, Iteration(now, NoLine, Some(d)), c);
            && c1.state == c.state && c1.stack == c.stack && c1.slots == EMPTY
            && |c1.sent| == |c.sent| + 1 && c1.sent[..|c.sent|] == c.sent
            && c1.sent[|c.sent|].data == [0, d[1], d[2]]
  {
    DecodedHeader(d);
    WordParts(d[1], d[2]);
    var mid := TakeDatagram(Some(d), c);
    EchoRow(Env(r, timeout, now), mid);
    AdvanceIsTable(Env(r, timeout, now), mid);
    ConfirmBytes(mid, mid.slots.input);
  }

  /** The two ID bytes of a queued message on the wire. */
  lemma WireIdBytes(m: Message, cfg: Config)
    requires m.kind in {AUTH, JOIN, MSG} && Wire(m, cfg, m.id).Some?
    ensures var w := Wire(m, cfg, m.id).value;
            |w| >= 3 && w[1] == Low(m.id) && w[2] == High(m.id) && Word(w[1], w[2]) == Swap(m.id)
  {
    SwapTwice(m.id);
    assert Wire(m, cfg, m.id).value[..3] == Header(m.kind, m.id);
  }

  /** What the table says to a CONFIRM of a queued ID in `Open`. */
  lemma AcknowledgeRow(env: Env, c: Client, k: nat)
    requires c.state == Open && c.slots.input.kind == CONFIRM
    requires c.slots.output.kind == NONE || c.slots.output.kind == BYE
    requires k < |c.stack| && c.stack[k].message.id == Swap(c.slots.input.id)
    ensures Table(env, c.slots, c) == Go(Open, Erase(WithId(c.stack[k].message.id)), Silent)
  {
    assert Holds(WithId(c.stack[k].message.id), c.stack[k], env);
  }

  /**
   * Acknowledgement: in `Open`, a CONFIRM that quotes the two ID bytes a queued MSG was
   * sent with removes exactly that MSG, and sends nothing.
   */
  lemma Acknowledged(r: byte, timeout: nat, now: int, c: Client, k: nat, cfg: Config, rest: bytes)
    requires c.state == Open && SlotsRead(c) && Ordered(c) && NoWrap(c)
    requires k < |c.stack| && c.stack[k].message.kind == MSG && |rest| < 0x1_0000 - 3
    ensures Wire(c.stack[k].message, cfg, c.stack[k].message.id).Some?
    ensures var w := Wire(c.stack[k].message, cfg, c.stack[k].message.id).value;
            |w| >= 3 &&
            var c1 := Handle(r, timeout, Iteration(now, NoLine, Some([CONFIRM.Code(), w[1], w[2]] + rest)), c);
            c1 == c.(stack := Dropped(c.stack, k), slots := EMPTY)
  {
    var id, env := c.stack[k].message.id, Env(r, timeout, now);
    WireIdBytes(c.stack[k].message, cfg);
    ConfirmDecodes(Low(id), High(id), rest);
    SwapTwice(id);
    var mid := TakeDatagram(Some([CONFIRM.Code(), Low(id), High(id)] + rest), c);
    AcknowledgeRow(env, mid, k);
    AdvanceIsTable(env, mid);
    EraseIdRemovesOne(c.stack, k, env, Limit(c));
  }

  /** What the table says to a REPLY in `Auth`. */
  lemma AuthReplyRow(env: Env, c: Client)
    requires c.state == Auth && Shape(c) && c.slots.input.kind == REPLY
    ensures var row, m, t := Table(env, c.slots, c), c.slots.input, WithId(c.slots.input.refId);
            var quoted := c.stack != [] && c.stack[0].message.id == m.refId;
            if !m.isOk then row == Go(Auth, Erase(t), Send(Response, Confirmation(c.cfg, m)))
            else if quoted then row == Go(Open, Drop(t), Send(Response, Confirmation(c.cfg, m)))
            else row == Refuse(false)
    ensures var t := WithId(c.slots.input.refId);
            if c.stack != [] && c.stack[0].message.id == c.slots.input.refId then
              EraseIf(c.stack, t, env) == [] && Queue(Drop(t), env, c.slots, c.stack) == []
            else EraseIf(c.stack, t, env) == c.stack
  {
  }

  /**
   * Authentication: a positive REPLY that quotes the two ID bytes of the queued AUTH
   * opens the client exactly when those bytes are equal, for the reference is compared
   * without swapping it back. The first AUTH has the ID 0, so it is accepted.
   */
  lemma AuthReplyAccepted(r: byte, timeout: nat, now: int, c: Client, cfg: Config, d: Datagram)
    requires c.state == Auth && Shape(c) && SlotsRead(c) && c.stack != []
    requires Wire(c.stack[0].message, cfg, c.stack[0].message.id).Some?
    requires var w, m := Wire(c.stack[0].message, cfg, c.stack[0].message.id).value, UdpDecoder.Decode(d);
             m.kind == REPLY && m.isOk && |w| >= 3 && m.refId == Word(w[1], w[2])
    ensures var c1 := Handle(r, timeout, Iteration(now, NoLine, Some(d)), c);
            var id := c.stack[0].message.id;
            (c1.state == Open <==> High(id) == Low(id)) &&
            (High(id) == Low(id) ==> c1.stack == []) &&
            (High(id) != Low(id) ==> c1 == Cleared(c))
  {
    var id := c.stack[0].message.id;
    assert c.stack[0] in c.stack;
    WireIdBytes(c.stack[0].message, cfg);
    SwapTwice(id);
    var mid := TakeDatagram(Some(d), c);
    AuthReplyRow(Env(r, timeout, now), mid);
    AdvanceIsTable(Env(r, timeout, now), mid);
  }

  /**
   * The same for a CONFIRM of the JOIN in `Join`: it is consumed exactly when the swapped
   * ID is queued, which for a JOIN alone in the queue means that its two bytes are equal.
   * If not, it stays in the input slot, unless a waiting BYE makes the loop clear both.
   */
  lemma JoinConfirmRecognised(r: byte, timeout: nat, now: int, c: Client, cfg: Config, rest: bytes)
    requires c.state == Join && Shape(c) && SlotsRead(c) && |rest| < 0x1_0000 - 3
    ensures Wire(c.stack[0].message, cfg, c.stack[0].message.id).Some?
    ensures var w, id := Wire(c.stack[0].message, cfg, c.stack[0].message.id).value, c.stack[0].message.id;
            |w| >= 3 &&
            var c1 := Handle(r, timeout, Iteration(now, NoLine, Some([CONFIRM.Code(), w[1], w[2]] + rest)), c);
            c1.state == Join && c1.stack == c.stack &&
            (c1.slots == EMPTY <==>
              c.slots.output.kind == BYE || exists e :: e in c.stack && e.message.id == Swap(id)) &&
            (|c.stack| == 1 && c.slots.output.kind == NONE ==> (c1.slots == EMPTY <==> High(id) == Low(id)))
  {
    var id := c.stack[0].message.id;
    WireIdBytes(c.stack[0].message, cfg);
    ConfirmDecodes(Low(id), High(id), rest);
    SwapTwice(id);
    var mid := TakeDatagram(Some([CONFIRM.Code(), Low(id), High(id)] + rest), c);
    AdvanceIsTable(Env(r, timeout, now), mid);
    AnyHasId(Env(r, timeout, now), mid, Swap(id));
  }

  lemma AnyHasId(env: Env, c: Client, id: uint16)
    ensures Any(WithId(id), env, c) <==> exists e :: e in c.stack && e.message.id == id
  {
    var k := FindFirst(c.stack, WithId(id), env);
    if k < |c.stack| {
      assert c.stack[k] in c.stack;
    } else {
      forall e | e in c.stack ensures e.message.id != id {
        var i :| 0 <= i < |c.stack| && c.stack[i] == e;
        assert !Holds(WithId(id), c.stack[i], env);
      }
    }
  }

  predicate SaysFarewell(d: Datagram) {
    var kind := UdpDecoder.Decode(d).kind; kind == ERR || kind == BYE || kind == ERR_INTERNAL
  }

  /**
   * An ERR, a BYE or a malformed datagram is confirmed and ends the client, from every
   * state, exactly when no BYE of the client's own is waiting. If one is, both are
   * forgotten and the client runs on.
   */
  lemma ErrorEndsClient(r: byte, timeout: nat, now: int, c: Client, d: Datagram)
    requires c.state != End && SlotsRead(c) && SaysFarewell(d)
    ensures var c1 := Handle(r, timeout, Iteration(now, NoLine, Some(d)), c);
            if c.slots.output.kind == NONE then
              c1.state == End && c1.stack == c.stack && SentConfirm(c.sent, c1.sent, UdpDecoder.Decode(d).id)
            else c1 == Cleared(c)
  {
    var mid := TakeDatagram(Some(d), c);
    FarewellRow(Env(r, timeout, now), mid);
    AdvanceIsTable(Env(r, timeout, now), mid);
    ConfirmBytes(mid, mid.slots.input);
  }

  /** What the table says to an ERR or a BYE from the server. */
  lemma FarewellRow(env: Env, c: Client)
    requires c.state != End && (c.slots.input.kind == ERR || c.slots.input.kind == BYE)
    requires c.slots.output.kind == NONE || c.slots.output.kind == BYE
    ensures var row := Table(env, c.slots, c);
            if c.slots.output.kind == NONE then row == Go(End, Keep, Send(Response, Confirmation(c.cfg, c.slots.input)))
            else row.Refuse?
  {
  }

  /** In `Auth`, a negative REPLY is confirmed, and takes the AUTH off the queue if it quotes its ID. */
  lemma AuthReplyRefused(r: byte, timeout: nat, now: int, c: Client, d: Datagram)
    requires c.state == Auth && Shape(c) && SlotsRead(c)
    requires UdpDecoder.Decode(d).kind == REPLY && !UdpDecoder.Decode(d).isOk
    ensures var m := UdpDecoder.Decode(d); var c1 := Handle(r, timeout, Iteration(now, NoLine, Some(d)), c);
            && c1.state == Auth && SentConfirm(c.sent, c1.sent, m.id)
            && c1.stack == if c.stack != [] && c.stack[0].message.id == m.refId then [] else c.stack
  {
    var mid := TakeDatagram(Some(d), c);
    AuthReplyRow(Env(r, timeout, now), mid);
    AdvanceIsTable(Env(r, timeout, now), mid);
    ConfirmBytes(mid, mid.slots.input);
  }

  /** What the table says to a REPLY in `Join`. */
  lemma JoinReplyRow(env: Env, c: Client)
    requires c.state == Join && Shape(c) && c.slots.input.kind == REPLY
    ensures Table(env, c.slots, c) ==
            if env.now - c.stack[0].timestamp > env.timeout then
              Go(Open, Drop(Expired(JOIN)), Send(Response, Confirmation(c.cfg, c.slots.input)))
            else Refuse(false)
    ensures env.now - c.stack[0].timestamp > env.timeout ==>
            Queue(Drop(Expired(JOIN)), env, c.slots, c.stack) == c.stack[1..]
  {
    if env.now - c.stack[0].timestamp > env.timeout {
      assert Holds(Expired(JOIN), c.stack[0], env);
      assert Dropped(c.stack, 0) == c.stack[1..];
    } else {
      assert forall j :: 0 <= j < |c.stack| ==> !Holds(Expired(JOIN), c.stack[j], env);
    }
  }

  /** In `Join`, a REPLY of any kind counts exactly when the JOIN has expired; an earlier one is dropped. */
  lemma JoinReplyAccepted(r: byte, timeout: nat, now: int, c: Client, d: Datagram)
    requires c.state == Join && Shape(c) && SlotsRead(c) && UdpDecoder.Decode(d).kind == REPLY
    ensures var c1 := Handle(r, timeout, Iteration(now, NoLine, Some(d)), c);
            if now - c.stack[0].timestamp > timeout then
              c1.state == Open && c1.stack == c.stack[1..] && SentConfirm(c.sent, c1.sent, UdpDecoder.Decode(d).id)
            else c1 == Cleared(c)
  {
    var mid, env := TakeDatagram(Some(d), c), Env(r, timeout, now);
    JoinReplyRow(env, mid);
    AdvanceIsTable(env, mid);
    ConfirmBytes(mid, mid.slots.input);
  }

  /** In `Open`, a REPLY ends the client exactly when its reference was not given out yet; others are dropped. */
  lemma UnexpectedReply(r: byte, timeout: nat, now: int, c: Client, d: Datagram)
    requires c.state == Open && SlotsRead(c) && UdpDecoder.Decode(d).kind == REPLY
    ensures var c1 := Handle(r, timeout, Iteration(now, NoLine, Some(d)), c);
            if UdpDecoder.Decode(d).refId >= Counter(c) then
              c1.state == End && |c1.sent| == |c.sent| + 1 && c1.sent[|c.sent|].message.kind == ERR
            else c1 == Cleared(c)
  {
    AdvanceIsTable(Env(r, timeout, now), TakeDatagram(Some(d), c));
  }

  /** The reference is the word of the two ID bytes of the message on the wire. */
  predicate QuotesId(reply: Message, m: Message, cfg: Config) {
    var w := Wire(m, cfg, m.id);
    w.Some? && |w.value| >= 3 && reply.refId == Word(w.value[1], w.value[2])
  }

  /**
   * On the wire: a REPLY to a queued JOIN that quotes the ID bytes in which the JOIN was
   * sent ends the client in `Open` if and only if the swapped ID was not given out yet.
   */
  lemma JoinReplyInOpen(r: byte, timeout: nat, now: int, c: Client, cfg: Config, d: Datagram, k: nat)
    requires c.state == Open && SlotsRead(c) && k < |c.stack| && c.stack[k].message.kind == JOIN
    requires UdpDecoder.Decode(d).kind == REPLY && QuotesId(UdpDecoder.Decode(d), c.stack[k].message, cfg)
    ensures var c1 := Handle(r, timeout, Iteration(now, NoLine, Some(d)), c);
            if Swap(c.stack[k].message.id) >= Counter(c) then
              c1.state == End && |c1.sent| == |c.sent| + 1 && c1.sent[|c.sent|].message.kind == ERR
            else c1 == Cleared(c)
  {
    WireIdBytes(c.stack[k].message, cfg);
    UnexpectedReply(r, timeout, now, c, d);
  }

  /** What keeps the automaton from reading a BYE in the next iteration: a timer that fires first. */
  predicate TimerFires(env: Env, c: Client) {
    match c.state
    case Open =>
      exists e :: e in c.stack &&
        (e.message.kind == JOIN || e.retransmissions == 0 ||
         (e.message.kind == MSG && env.now - e.timestamp > env.timeout))
    case Join => exists e :: e in c.stack && e.message.kind == JOIN && env.now - e.timestamp > env.timeout
    case _ => false
  }

  lemma AnyIsSome(t: Test, env: Env, c: Client)
    ensures Any(t, env, c) <==> exists e :: e in c.stack && Holds(t, e, env)
  {
    assert forall j :: 0 <= j < |c.stack| ==> c.stack[j] in c.stack;
  }

  /** The timers are those of the table: a JOIN to resend, entries to sweep, a MSG to resend; or a JOIN's timeout. */
  lemma TimersAre(env: Env, c: Client)
    ensures c.state == Open ==>
            (TimerFires(env, c) <==>
             Any(Resendable(JOIN), env, c) || Any(Exhausted, env, c) || Any(Expired(MSG), env, c))
    ensures c.state == Join ==> (TimerFires(env, c) <==> Any(Expired(JOIN), env, c))
  {
    AnyIsSome(Resendable(JOIN), env, c);
    AnyIsSome(Exhausted, env, c);
    AnyIsSome(Expired(MSG), env, c);
    AnyIsSome(Expired(JOIN), env, c);
    if e :| e in c.stack && e.message.kind == JOIN {
      assert Holds(Resendable(JOIN), e, env) || Holds(Exhausted, e, env);
    }
  }

  /**
   * `exit()` announces a BYE and leaves it in the output slot. The next iteration, if
   * nothing comes in, ends the client exactly when no timer fires first; otherwise the
   * BYE is forgotten and the client runs on.
   */
  lemma GoodbyeHonoured(r: byte, timeout: nat, now: int, c: Client, cfg: Config)
    requires c.state != End
    ensures var c1 := Handle(r, timeout, Quit(cfg), c);
            var c2 := Handle(r, timeout, Iteration(now, NoLine, None), c1);
            (c2.state == End <==> !TimerFires(Env(r, timeout, now), c)) && c2.slots == EMPTY
  {
    var c1 := Handle(r, timeout, Quit(cfg), c);
    TimersAre(Env(r, timeout, now), c1);
    AdvanceIsTable(Env(r, timeout, now), c1);
  }

  /** With a BYE waiting, only the guards that send an ERR lead to `End`. */
  lemma GoodbyeRow(env: Env, c: Client)
    requires c.state != End && c.slots.output.kind == BYE && c.slots.input.kind != NONE
    ensures var row, m := Table(env, c.slots, c), c.slots.input;
            row.Go? && row.target == End <==>
            (c.state == Auth && m.kind == MSG) || (c.state == Open && m.kind == REPLY && m.refId >= Counter(c))
  {
  }

  /**
   * The turn after `exit()` with a datagram: the BYE is always forgotten. The client ends
   * only where the datagram makes it send an ERR: on a MSG in `Auth`, and in `Open` on a
   * REPLY with a reference that was not given out yet.
   */
  lemma GoodbyeInterrupted(r: byte, timeout: nat, now: int, c: Client, cfg: Config, d: Datagram)
    requires c.state != End
    ensures var c1 := Handle(r, timeout, Quit(cfg), c);
            var c2 := Handle(r, timeout, Iteration(now, NoLine, Some(d)), c1);
            var m := UdpDecoder.Decode(d);
            c2.slots == EMPTY &&
            (c2.state == End <==>
              (c.state == Auth && m.kind == MSG) || (c.state == Open && m.kind == REPLY && m.refId >= Counter(c1)))
  {
    var c1 := Handle(r, timeout, Quit(cfg), c);
    DecodedKind(d);
    GoodbyeRow(Env(r, timeout, now), TakeDatagram(Some(d), c1));
    AdvanceIsTable(Env(r, timeout, now), TakeDatagram(Some(d), c1));
  }

  /** The decoder reports no type but those of the protocol and the internal error. */
  lemma DecodedKind(d: Datagram)
    ensures UdpDecoder.Decode(d).kind != NONE
  {
    if UdpDecoder.Decode(d).kind != ERR_INTERNAL { DecodedHeader(d); }
  }

  /**
   * When a typed command is queued. In `Open` a MSG waits for no timer to fire, unless a
   * CONFIRM left in the input slot keeps the timers from running; such a CONFIRM keeps an
   * AUTH out of the queue, but not a JOIN.
   */
  predicate Queues(env: Env, c: Client, kind: MessageType) {
    match kind
    case AUTH => c.state in {Start, Auth} && c.stack == [] && c.slots.input.kind == NONE
    case JOIN => c.state == Open && c.stack == []
    case MSG => c.state == Open && (c.slots.input.kind == CONFIRM || !TimerFires(env, c))
    case _ => false
  }

  function Queued(c: Client, kind: MessageType): State {
    match kind
    case AUTH => Auth
    case JOIN => Join
    case _ => c.state
  }

  /** What the table says to a command. */
  lemma CommandRow(env: Env, c: Client)
    requires c.slots.input.kind in {NONE, CONFIRM} && c.slots.output.kind in {AUTH, JOIN, MSG}
    ensures var row := Table(env, c.slots, c);
            if Queues(env, c, c.slots.output.kind) then row == Go(Queued(c, c.slots.output.kind), Push, Silent)
            else row.Go? ==> !row.op.Push?
  {
    TimersAre(env, c);
  }

  /** Nothing but a push makes the queue longer. */
  lemma OnlyPushAdds(op: QueueOp, env: Env, m: Slots, stack: seq<Entry>)
    requires !op.Push?
    ensures |Queue(op, env, m, stack)| <= |stack|
  {
  }

  lemma AdvanceCommand(env: Env, c: Client)
    requires c.slots.input.kind in {NONE, CONFIRM} && c.slots.output.kind in {AUTH, JOIN, MSG}
    ensures var c1 := Advance(env, c);
            if Queues(env, c, c.slots.output.kind) then
              c1.stack == c.stack + [NewEntry(env, c.slots.output)] && c1.state == Queued(c, c.slots.output.kind)
            else |c1.stack| <= |c.stack|
  {
    CommandRow(env, c);
    var row := Table(env, c.slots, c);
    if row.Go? && !row.op.Push? { OnlyPushAdds(row.op, env, c.slots, c.stack); }
    AdvanceIsTable(env, c);
  }

  lemma AdvanceSends(env: Env, c: Client)
    ensures var c1 := Advance(env, c); |c.sent| <= |c1.sent| && c1.sent[..|c.sent|] == c.sent
  {
    AdvanceIsTable(env, c);
  }

  /**
   * A command typed in any state but `End`, with nothing coming in, is always sent under
   * the next ID. It is queued for retransmission exactly when `Queues` says so; else the
   * queue gets no new entry, and the command is lost if its datagram is. A waiting BYE is
   * overwritten.
   */
  lemma UserMessageQueued(r: byte, timeout: nat, now: int, c: Client, cfg: Config, m: Message)
    requires c.state != End && SlotsRead(c) && m.kind in {AUTH, JOIN, MSG} && m.id == UNASSIGNED
    ensures var id := Counter(c); var c1 := Handle(r, timeout, Iteration(now, Parsed(cfg, m), None), c);
            && |c.sent| < |c1.sent| && c1.sent[..|c.sent|] == c.sent
            && c1.sent[|c.sent|] == Sent(UserLine, m, id, Encode(m, cfg, id))
            && if Queues(Env(r, timeout, now), c, m.kind) then
                 c1.stack == c.stack + [Entry(now, r, m.(id := id))] && c1.state == Queued(c, m.kind)
               else |c1.stack| <= |c.stack|
  {
    var env, mid := Env(r, timeout, now), TakeLine(Parsed(cfg, m), c);
    PreviousId(c.issued);
    assert mid.slots.output == m.(id := Counter(c)) && mid.stack == c.stack && mid.slots.input == c.slots.input;
    AdvanceCommand(env, mid);
    AdvanceSends(env, mid);
  }
}
