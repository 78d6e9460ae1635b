/**
 * The client as it runs: guards that change its fields, edges tried in a loop, and the
 * main loop. Every method is proved to do what the automaton's specification says.
 */
module UdpClient {
  import opened Bytes
  import opened Messages
  import opened UdpFsm
  import Encoding = UdpEncoder
  import Decoding = UdpDecoder

  lemma AfterStep(r: byte, timeout: nat, cfg: Config, events: seq<Event>, i: nat)
    requires i < |events|
    ensures After(r, timeout, cfg, events[..i + 1]) ==
            Handle(r, timeout, events[i], After(r, timeout, cfg, events[..i]))
  {
    assert events[..i + 1][..i] == events[..i];
  }

  class UdpClient {
    const retransmissions: byte
    const timeout: nat
    const encoder: Encoding.UdpEncoder
    const decoder: Decoding.UdpDecoder
    var state: State
    var stack: seq<Entry>
    var input: Message
    var output: Message
    var cfg: Config
    ghost var sent: seq<Sent>

    ghost function View(): Client
      reads this, encoder
    {
      Client(state, stack, Slots(input, output), cfg, encoder.issued, sent)
    }

    ghost predicate Valid()
      reads this, encoder, decoder
    {
      encoder.Valid() && decoder.Valid()
    }

    constructor (retransmissions: byte, timeout: nat, cfg: Config)
      ensures Valid() && View() == Initial(cfg)
      ensures fresh(encoder) && fresh(decoder)
      ensures this.retransmissions == retransmissions && this.timeout == timeout
    {
      this.retransmissions, this.timeout := retransmissions, timeout;
      encoder := new Encoding.UdpEncoder();
      decoder := new Decoding.UdpDecoder();
      state, stack, input, output, this.cfg, sent := Start, [], NOTHING, NOTHING, cfg, [];
    }

    function EnvAt(now: int): Env { Env(retransmissions, timeout, now) }

    /** `Messages::clear`. */
    method Clear()
      modifies this`input, this`output
      ensures View() == Cleared(old(View()))
    {
      input := NOTHING;
      output := NOTHING;
    }

    /** `encodeBinary`, then `send` if there is anything to send. */
    method EncodeAndSend(cause: Cause, m: Message)
      requires Valid()
      modifies this`sent, encoder
      ensures Valid() && View() == Transmit(old(View()), cause, m)
    {
      ghost var id := Encoding.IdFor(m, encoder.issued);
      var data, size := encoder.EncodeBinary(m, cfg);
      sent := sent + [Sent(cause, m, id, data[..size])];
    }

    /** The answer that most guards give to what they accept. */
    method ConfirmInput(in_: Message)
      requires Valid()
      modifies this`input, this`output, this`sent, encoder
      ensures Valid() && View() == Confirmed(old(View()), in_)
    {
      output := New(CONFIRM, cfg.displayName);
      output := output.(id := in_.id);
      output := output.(refId := in_.id);
      EncodeAndSend(Response, output);
      Clear();
    }

    /** `erase_if`, counting what goes. */
    method Sweep(t: Test, now: int) returns (ok: bool)
      modifies this
      ensures View() == Erased(t, EnvAt(now), old(View()))
      ensures ok <==> |stack| < |old(stack)|
    {
      var before := |stack|;
      stack := EraseIf(stack, t, EnvAt(now));
      ok := before - |stack| > 0;
      Clear();
    }

    /** Find an expired entry of a kind, decrement it in the queue and send it again. */
    method ResendExpired(kind: MessageType, now: int) returns (ok: bool)
      requires Valid()
      modifies this, encoder
      ensures Valid() && (ok, View()) == Resent(kind, EnvAt(now), old(View()))
    {
      var k := FindFirst(stack, Expired(kind), EnvAt(now));
      ok := k < |stack|;
      if ok {
        var element := stack[k].Decremented(now);
        stack := stack[k := element];
        EncodeAndSend(Resend, element.message);
      }
      Clear();
    }

    method Remove(k: nat)
      requires k < |stack|
      modifies this`stack
      ensures stack == Dropped(old(stack), k)
    {
      stack := stack[..k] + stack[k + 1..];
    }

    // ------------------------------------------------------------------ the guards

    /** Guards for what the user wants: they read the output slot. */
    method EvaluateUser(g: Guard, now: int, m: Slots) returns (ok: bool)
      requires g in {QueueAuth, QueueMessage, QueueJoin, UserBye}
      modifies this
      ensures (ok, View()) == Apply(g, EnvAt(now), m, old(View()))
    {
      if g == QueueAuth {
        ok := stack == [] && m.output.kind == AUTH && m.input.kind == NONE;
      } else if g == QueueMessage {
        ok := m.output.kind == MSG;
      } else if g == QueueJoin {
        ok := stack == [] && m.output.kind == JOIN;
      } else {
        ok := m.output.kind == BYE && m.input.kind == NONE;
      }
      if ok {
        if g == QueueAuth || g == QueueJoin {
          stack := [NewEntry(EnvAt(now), m.output)] + stack;
        } else if g == QueueMessage {
          stack := stack + [NewEntry(EnvAt(now), m.output)];
        }
        Clear();
      }
    }

    /** Guards for the timers: they want an empty input slot, and clear the slots even when they fail. */
    method EvaluateTimer(g: Guard, now: int, m: Slots) returns (ok: bool)
      requires g in {SweepExhausted, ResendAuth, ResendMessage, JoinTimeout, ResendJoin}
      requires Valid()
      modifies this, encoder
      ensures Valid() && (ok, View()) == Apply(g, EnvAt(now), m, old(View()))
    {
      if m.input.kind != NONE { return false; }
      if g == SweepExhausted {
        ok := Sweep(Exhausted, now);
      } else if g == ResendAuth {
        ok := ResendExpired(AUTH, now);
      } else if g == ResendMessage {
        ok := ResendExpired(MSG, now);
      } else if g == JoinTimeout {
        var k := FindFirst(stack, Expired(JOIN), EnvAt(now));
        ok := k < |stack|;
        if ok { stack := stack[k := stack[k].Decremented(now)]; }
        Clear();
      } else {
        var k := FindFirst(stack, Resendable(JOIN), EnvAt(now));
        ok := k < |stack|;
        if ok {
          EncodeAndSend(Resend, stack[k].message);
          Clear();
        }
      }
    }

    /** Guards for a REPLY that take one entry off the queue. */
    method EvaluateReply(g: Guard, now: int, m: Slots) returns (ok: bool)
      requires g.PositiveReply? || g.JoinReply?
      requires Valid()
      modifies this, encoder
      ensures Valid() && (ok, View()) == Apply(g, EnvAt(now), m, old(View()))
    {
      if m.input.kind != REPLY || (g.PositiveReply? && !m.input.isOk) { return false; }
      var k := FindFirst(stack, if g.PositiveReply? then WithId(m.input.refId) else Expired(JOIN), EnvAt(now));
      ok := k < |stack|;
      if ok {
        ConfirmInput(m.input);
        Remove(k);
      }
    }

    /** Guards that look the ID of a CONFIRM or a negative REPLY up in the queue. */
    method EvaluateReference(g: Guard, now: int, m: Slots) returns (ok: bool)
      requires g.NegativeReply? || g.JoinConfirmed? || g.Acknowledge?
      requires Valid()
      modifies this, encoder
      ensures Valid() && (ok, View()) == Apply(g, EnvAt(now), m, old(View()))
    {
      ok := false;
      if g.NegativeReply? {
        ok := m.input.kind == REPLY && !m.input.isOk;
        if ok {
          stack := EraseIf(stack, WithId(m.input.refId), EnvAt(now));
          ConfirmInput(m.input);
        }
      } else if g.JoinConfirmed? {
        ok := m.input.kind == CONFIRM && FindFirst(stack, WithId(m.input.id), EnvAt(now)) < |stack|;
        if ok { Clear(); }
      } else if m.input.kind == CONFIRM {
        ok := Sweep(WithId(Swap(m.input.id)), now);
      }
    }

    /** Send an ERR and clear the slots. */
    method SendError(text: bytes)
      requires Valid()
      modifies this`input, this`output, this`sent, encoder
      ensures Valid()
      ensures View() == Cleared(Transmit(old(View()), Response, New(ERR, old(View()).cfg.displayName).(text := text)))
    {
      output := New(ERR, cfg.displayName);
      output := output.(text := text);
      EncodeAndSend(Response, output);
      Clear();
    }

    /** Guards that complain to the server. */
    method EvaluateComplaint(g: Guard, now: int, m: Slots) returns (ok: bool)
      requires g.EarlyMessage? || g.UnsolicitedReply?
      requires Valid()
      modifies this, encoder
      ensures Valid() && (ok, View()) == Apply(g, EnvAt(now), m, old(View()))
    {
      if g.EarlyMessage? {
        ok := m.input.kind == MSG;
        if ok { SendError([]); }
      } else {
        ok := m.input.kind == REPLY && m.input.refId >= encoder.messageID;
        if ok { SendError(UNEXPECTED_REPLY); }
      }
    }

    /** Guards that confirm what the server sent. */
    method EvaluateAnswer(g: Guard, now: int, m: Slots) returns (ok: bool)
      requires g.ConfirmAndEnd? || g.EchoMessage? || g.EchoPing?
      requires Valid()
      modifies this, encoder
      ensures Valid() && (ok, View()) == Apply(g, EnvAt(now), m, old(View()))
    {
      if g.ConfirmAndEnd? {
        ok := m.output.kind == NONE && (m.input.kind == ERR || m.input.kind == BYE);
      } else if g.EchoPing? {
        ok := m.input.kind == PING;
      } else {
        ok := m.input.kind == MSG;
      }
      if ok { ConfirmInput(m.input); }
    }

    method Evaluate(g: Guard, now: int, m: Slots) returns (ok: bool)
      requires Valid()
      modifies this, encoder
      ensures Valid() && (ok, View()) == Apply(g, EnvAt(now), m, old(View()))
    {
      if g in {QueueAuth, QueueMessage, QueueJoin, UserBye} {
        ok := EvaluateUser(g, now, m);
      } else if g in {SweepExhausted, ResendAuth, ResendMessage, JoinTimeout, ResendJoin} {
        ok := EvaluateTimer(g, now, m);
      } else if g in {PositiveReply, JoinReply} {
        ok := EvaluateReply(g, now, m);
      } else if g in {NegativeReply, JoinConfirmed, Acknowledge} {
        ok := EvaluateReference(g, now, m);
      } else if g in {EarlyMessage, UnsolicitedReply} {
        ok := EvaluateComplaint(g, now, m);
      } else {
        ok := EvaluateAnswer(g, now, m);
      }
    }

    // -------------------------------------------------------------- edges and nodes

    /** `Edge::accept`: the first guard that answers `true` ends the loop. */
    method AcceptEdge(e: Edge, now: int, m: Slots) returns (ok: bool)
      requires Valid()
      modifies this, encoder
      ensures Valid() && (ok, View()) == Accept(e, EnvAt(now), m, old(View()))
    {
      if e.guards == [] { return true; }
      ok := false;
      var i := 0;
      ghost var before := View();
      while i < |e.guards|
        invariant 0 <= i <= |e.guards| && Valid()
        invariant (ok, View()) == TryGuards(e.guards[..i], EnvAt(now), m, before)
        invariant !ok
      {
        assert e.guards[..i + 1][..i] == e.guards[..i];
        ok := Evaluate(e.guards[i], now, m);
        i := i + 1;
        if ok {
          SucceedsEarly(e.guards, i, EnvAt(now), m, before);
          return;
        }
      }
      assert e.guards[..i] == e.guards;
    }

    /** `Node::next` on the wired edges of the current state. */
    method NextState(now: int, m: Slots) returns (target: Option<State>)
      requires Valid()
      modifies this, encoder
      ensures Valid() && (target, View()) == Next(Wiring(old(state)), EnvAt(now), m, old(View()))
    {
      var edges := Wiring(state);
      var i := 0;
      ghost var before := View();
      target := None;
      while i < |edges|
        invariant 0 <= i <= |edges| && Valid()
        invariant (target, View()) == Next(edges[..i], EnvAt(now), m, before)
        invariant target == None
      {
        assert edges[..i + 1][..i] == edges[..i];
        var ok := AcceptEdge(edges[i], now, m);
        i := i + 1;
        if ok {
          target := Some(edges[i - 1].target);
          NextEarly(edges, i, EnvAt(now), m, before);
          return;
        }
      }
      assert edges[..i] == edges;
    }

    // ---------------------------------------------------------------- the main loop

    method ReadLine(line: Input)
      requires Valid()
      modifies this, encoder
      ensures Valid() && View() == TakeLine(line, old(View()))
    {
      match line
      case NoLine =>
      case Rejected(newCfg) => cfg := newCfg;
      case Parsed(newCfg, message) =>
        cfg := newCfg;
        output := message;
        if message.kind != NONE {
          EncodeAndSend(UserLine, message);
          output := output.(id := (encoder.messageID + 0xFFFF) % 0x1_0000);
        }
    }

    method ReadDatagram(datagram: Option<Datagram>)
      requires Valid()
      modifies this, decoder
      ensures Valid() && View() == TakeDatagram(datagram, old(View()))
    {
      match datagram
      case None =>
      case Some(d) =>
        input := decoder.Receive(d);
        if input.kind == ERR_INTERNAL { input := input.(kind := ERR); }
    }

    method RunAutomaton(now: int)
      requires Valid()
      modifies this, encoder
      ensures Valid() && View() == Advance(EnvAt(now), old(View()))
    {
      if stack != [] || input.kind != NONE || output.kind != NONE {
        var next := NextState(now, Slots(input, output));
        if next.Some? {
          state := next.value;
        } else if (input.kind != NONE && input.kind != CONFIRM) || output.kind != NONE {
          Clear();
        }
      }
    }

    /** `exit()`. */
    method Exit()
      requires Valid()
      modifies this, encoder
      ensures Valid() && View() == SayGoodbye(old(View()))
    {
      Clear();
      output := New(BYE, cfg.displayName);
      EncodeAndSend(Goodbye, output);
    }

    /** One turn of the main loop, or the request to quit. */
    method HandleEvent(ev: Event)
      requires Valid() && state != End
      modifies this, encoder, decoder
      ensures Valid() && View() == Handle(retransmissions, timeout, ev, old(View()))
    {
      match ev
      case Quit(newCfg) =>
        cfg := newCfg;
        Exit();
      case Iteration(now, line, datagram) =>
        ReadLine(line);
        ReadDatagram(datagram);
        RunAutomaton(now);
    }

    /** `run()`: one event per iteration, until the automaton is in `End` or the events are over. */
    method Run(events: seq<Event>)
      requires Valid() && View() == Initial(cfg)
      modifies this, encoder, decoder
      ensures Valid() && View() == After(retransmissions, timeout, old(cfg), events)
    {
      var i := 0;
      while i < |events|
        invariant 0 <= i <= |events| && Valid()
        invariant View() == After(retransmissions, timeout, old(cfg), events[..i])
      {
        AfterStep(retransmissions, timeout, old(cfg), events, i);
        if state != End { HandleEvent(events[i]); }
        i := i + 1;
      }
      assert events[..i] == events;
    }
  }

  /** Guards after the first success are not evaluated. */
  lemma {:induction false} SucceedsEarly(guards: seq<Guard>, n: nat, env: Env, m: Slots, c: Client)
    requires n <= |guards| && TryGuards(guards[..n], env, m, c).0
    ensures TryGuards(guards, env, m, c) == TryGuards(guards[..n], env, m, c)
    decreases |guards|
  {
    if n < |guards| {
      var shorter := guards[..|guards| - 1];
      assert shorter[..n] == guards[..n];
      SucceedsEarly(shorter, n, env, m, c);
    } else {
      assert guards[..n] == guards;
    }
  }

  lemma {:induction false} NextEarly(edges: seq<Edge>, n: nat, env: Env, m: Slots, c: Client)
    requires n <= |edges| && Next(edges[..n], env, m, c).0.Some?
    ensures Next(edges, env, m, c) == Next(edges[..n], env, m, c)
    decreases |edges|
  {
    if n < |edges| {
      var shorter := edges[..|edges| - 1];
      assert shorter[..n] == edges[..n];
      NextEarly(shorter, n, env, m, c);
    } else {
      assert edges[..n] == edges;
    }
  }
}
