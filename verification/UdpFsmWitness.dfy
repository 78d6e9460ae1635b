/** Runs that reach the states in which the client stops listening. */
module UdpFsmWitness {
  import opened Bytes
  import opened Messages
  import opened UdpEncoder
  import opened UdpFsm
  import opened UdpFsmTable
  import opened UdpFsmQueue
  import opened UdpFsmDrain
  import opened UdpFsmWire
  import UdpFsmBudget
  import UdpDecoder

  lemma AfterStep(r: byte, timeout: nat, cfg: Config, run: seq<Event>, ev: Event)
    ensures After(r, timeout, cfg, run + [ev]) == Handle(r, timeout, ev, After(r, timeout, cfg, run))
  {
    assert (run + [ev])[..|run|] == run;
  }

  predicate IsAuthCommand(m: Message) {
    m.kind == AUTH && m.id == UNASSIGNED && |m.author| <= MAX_AUTHOR && |m.text| <= MAX_TEXT
  }

  lemma AuthRowPushes(env: Env, c: Client)
    requires (c.state == Start || c.state == Auth) && c.stack == []
    requires c.slots.input.kind == NONE && c.slots.output.kind == AUTH
    ensures Table(env, c.slots, c) == Go(Auth, Push, Silent)
  {
  }

  /** `/auth` on an empty queue: the next ID, queued with its full budget. */
  lemma AuthTyped(r: byte, timeout: nat, now: int, c: Client, cfg: Config, m: Message)
    requires (c.state == Start || c.state == Auth) && c.stack == [] && c.slots == EMPTY && IsAuthCommand(m)
    ensures var c1 := Handle(r, timeout, Iteration(now, Parsed(cfg, m), None), c);
            && c1.state == Auth && c1.slots == EMPTY && c1.issued == c.issued + 1
            && c1.stack == [Entry(now, r, m.(id := Counter(c)))]
  {
    var env, mid := Env(r, timeout, now), TakeLine(Parsed(cfg, m), c);
    UdpFsmBudget.TakeLineCases(Parsed(cfg, m), c);
    AuthRowPushes(env, mid);
    AdvanceIsTable(env, mid);
    assert Queue(Push, env, mid.slots, mid.stack) == [NewEntry(env, mid.slots.output)];
  }

  /** In `Auth` a CONFIRM with any ID stays in the input slot. */
  lemma ConfirmStays(r: byte, timeout: nat, now: int, c: Client, a: byte, b: byte)
    requires c.state == Auth && c.stack != [] && c.slots == EMPTY
    ensures Stuck(Handle(r, timeout, Iteration(now, NoLine, Some([CONFIRM.Code(), a, b])), c))
    ensures Handle(r, timeout, Iteration(now, NoLine, Some([CONFIRM.Code(), a, b])), c).slots.output.kind == NONE
  {
    ConfirmDecodes(a, b, []);
    assert [CONFIRM.Code(), a, b] + [] == [CONFIRM.Code(), a, b];
    AdvanceIsTable(Env(r, timeout, now), TakeDatagram(Some([CONFIRM.Code(), a, b]), c));
  }

  /** `/auth`, and the server's CONFIRM of it. */
  function AuthThenConfirm(cfg: Config, auth: Message, now: int, then_: int, a: byte, b: byte): seq<Event> {
    [Iteration(now, Parsed(cfg, auth), None), Iteration(then_, NoLine, Some([CONFIRM.Code(), a, b]))]
  }

  /**
   * An ordinary run gets stuck: the user authenticates and the server confirms the
   * AUTH before it answers. However long the client is then left alone, it neither
   * resends the AUTH nor gives it up.
   */
  lemma StuckIsReached(r: byte, timeout: nat, cfg: Config, auth: Message, now: int, then_: int, a: byte, b: byte,
      times: seq<int>)
    requires IsAuthCommand(auth)
    ensures var run := AuthThenConfirm(cfg, auth, now, then_, a, b);
            && IsRun(run) && Stuck(After(r, timeout, cfg, run))
            && After(r, timeout, cfg, run + IdleEvents(times)) == After(r, timeout, cfg, run)
  {
    var run := AuthThenConfirm(cfg, auth, now, then_, a, b);
    var c := Handle(r, timeout, run[0], Initial(cfg));
    assert run[..1] == [] + [run[0]] && run[..1] + [run[1]] == run;
    AfterStep(r, timeout, cfg, [], run[0]);
    AfterStep(r, timeout, cfg, run[..1], run[1]);
    AuthTyped(r, timeout, now, Initial(cfg), cfg, auth);
    ConfirmStays(r, timeout, then_, c, a, b);
    RestIsRun(r, timeout, cfg, run, times);
    StuckForever(r, timeout, After(r, timeout, cfg, run), times);
  }

  // ------------------------------------------------------- a reply that is not heard

  /** A REPLY that refers to the ID bytes `a` and `b`. */
  function Reply(ok: bool, a: byte, b: byte, text: bytes): bytes {
    UdpDecoder.Serialise(UdpDecoder.Packet(REPLY, 0, ok, Word(a, b), [text]))
  }

  lemma ReplyDecodes(ok: bool, a: byte, b: byte, text: bytes)
    requires UdpDecoder.IsField(UdpDecoder.CONTENT_FIELD, text) && |text| <= MAX_TEXT
    ensures |Reply(ok, a, b, text)| < 0x1_0000
    ensures UdpDecoder.Decode(Reply(ok, a, b, text)) == Message(REPLY, text, [], ok, 0, Word(a, b))
  {
    var p := UdpDecoder.Packet(REPLY, 0, ok, Word(a, b), [text]);
    assert UdpDecoder.ZeroTerminated([text]) == text + [0] + UdpDecoder.ZeroTerminated([]);
    UdpDecoder.DecodesPacket(UdpDecoder.FRESH, Reply(ok, a, b, text), p);
  }

  /** A negative REPLY to the queued AUTH empties the queue and draws no ID. */
  lemma Refused(r: byte, timeout: nat, now: int, c: Client, text: bytes)
    requires c.state == Auth && Shape(c) && c.slots == EMPTY
    requires c.stack != [] && c.stack[0].message.id == 0
    requires UdpDecoder.IsField(UdpDecoder.CONTENT_FIELD, text) && |text| <= MAX_TEXT
    ensures |Reply(false, 0, 0, text)| < 0x1_0000
    ensures var c1 := Handle(r, timeout, Iteration(now, NoLine, Some(Reply(false, 0, 0, text))), c);
            c1.state == Auth && c1.stack == [] && c1.slots == EMPTY && c1.issued == c.issued
  {
    ReplyDecodes(false, 0, 0, text);
    var mid := TakeDatagram(Some(Reply(false, 0, 0, text)), c);
    AuthReplyRow(Env(r, timeout, now), mid);
    AdvanceIsTable(Env(r, timeout, now), mid);
  }

  /** The ID 1 goes over the wire as the bytes 1 and 0, and the server quotes them. */
  lemma Unheard(r: byte, timeout: nat, now: int, c: Client, cfg: Config, text: bytes)
    requires c.state == Auth && Shape(c) && c.slots == EMPTY
    requires c.stack != [] && c.stack[0].message.kind == AUTH && c.stack[0].message.id == 1
    requires UdpDecoder.IsField(UdpDecoder.CONTENT_FIELD, text) && |text| <= MAX_TEXT
    ensures |Reply(true, 1, 0, text)| < 0x1_0000
    ensures Handle(r, timeout, Iteration(now, NoLine, Some(Reply(true, 1, 0, text))), c) == c
  {
    ReplyDecodes(true, 1, 0, text);
    WireIdBytes(c.stack[0].message, cfg);
    AuthReplyAccepted(r, timeout, now, c, cfg, Reply(true, 1, 0, text));
  }

  /** `/auth`, a negative REPLY to it, and `/auth` again. */
  function SecondAttempt(cfg: Config, auth: Message, text: bytes): seq<Event>
    requires |Reply(false, 0, 0, text)| < 0x1_0000
  {
    [Iteration(0, Parsed(cfg, auth), None), Iteration(0, NoLine, Some(Reply(false, 0, 0, text))),
     Iteration(0, Parsed(cfg, auth), None)]
  }

  /**
   * After one refused attempt the client does not hear that the second one succeeded:
   * the AUTH is queued with the ID 1, which is sent as the bytes 1 and 0 (`WireIdBytes`),
   * the server's positive REPLY quotes them as they came, and nothing happens.
   */
  lemma SecondAttemptUnheard(r: byte, timeout: nat, cfg: Config, auth: Message, text: bytes)
    requires IsAuthCommand(auth)
    requires UdpDecoder.IsField(UdpDecoder.CONTENT_FIELD, text) && |text| <= MAX_TEXT
    ensures |Reply(false, 0, 0, text)| < 0x1_0000 && |Reply(true, 1, 0, text)| < 0x1_0000
    ensures var run := SecondAttempt(cfg, auth, text); var c := After(r, timeout, cfg, run);
            && IsRun(run) && c.state == Auth && c.stack == [Entry(0, r, auth.(id := 1))]
            && After(r, timeout, cfg, run + [Iteration(0, NoLine, Some(Reply(true, 1, 0, text)))]) == c
  {
    ReplyDecodes(false, 0, 0, text);
    SecondQueued(r, timeout, cfg, auth, text);
    var run := SecondAttempt(cfg, auth, text);
    Unheard(r, timeout, 0, After(r, timeout, cfg, run), cfg, text);
    AfterStep(r, timeout, cfg, run, Iteration(0, NoLine, Some(Reply(true, 1, 0, text))));
  }

  lemma SecondQueued(r: byte, timeout: nat, cfg: Config, auth: Message, text: bytes)
    requires IsAuthCommand(auth)
    requires UdpDecoder.IsField(UdpDecoder.CONTENT_FIELD, text) && |text| <= MAX_TEXT
    ensures |Reply(false, 0, 0, text)| < 0x1_0000
    ensures var run := SecondAttempt(cfg, auth, text); var c := After(r, timeout, cfg, run);
            IsRun(run) && c.state == Auth && c.slots == EMPTY && c.stack == [Entry(0, r, auth.(id := 1))]
  {
    ReplyDecodes(false, 0, 0, text);
    var run := SecondAttempt(cfg, auth, text);
    assert run[..1] == [] + [run[0]] && run[..2] == run[..1] + [run[1]] && run == run[..2] + [run[2]];
    AfterStep(r, timeout, cfg, [], run[0]);
    AfterStep(r, timeout, cfg, run[..1], run[1]);
    AfterStep(r, timeout, cfg, run[..2], run[2]);
    AuthTyped(r, timeout, 0, Initial(cfg), cfg, auth);
    Refused(r, timeout, 0, After(r, timeout, cfg, run[..1]), text);
    AuthTyped(r, timeout, 0, After(r, timeout, cfg, run[..2]), cfg, auth);
  }
}
