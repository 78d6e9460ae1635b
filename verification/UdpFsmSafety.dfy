/** Safety over whole runs: who authenticated the client, and what its resends contain. */
module UdpFsmSafety {
  import opened Bytes
  import opened Messages
  import opened Sequences
  import opened UdpEncoder
  import opened UdpFsm
  import opened UdpFsmTable
  import opened UdpFsmQueue
  import opened UdpFsmBudget
  import UdpDecoder

  // ---------------------------------------------------------------- authentication

  predicate HasAuth(stack: seq<Entry>, id: uint16) {
    exists e :: e in stack && e.message.kind == AUTH && e.message.id == id
  }

  /** Event `j` of the run is an AUTH command, and it puts an AUTH with this ID into the queue. */
  predicate QueuedAt(r: byte, timeout: nat, cfg: Config, run: seq<Event>, j: nat, id: uint16) {
    && j < |run| && run[j].Iteration? && run[j].line.Parsed? && run[j].line.message.kind == AUTH
    && !HasAuth(After(r, timeout, cfg, run[..j]).stack, id)
    && HasAuth(After(r, timeout, cfg, run[..j + 1]).stack, id)
  }

  /** Event `k` brings a positive REPLY whose reference is a queued AUTH with this ID. */
  predicate AcceptedAt(r: byte, timeout: nat, cfg: Config, run: seq<Event>, k: nat, id: uint16) {
    && k < |run| && run[k].Iteration? && run[k].datagram.Some?
    && (var m := UdpDecoder.Decode(run[k].datagram.value); m.kind == REPLY && m.isOk && m.refId == id)
    && After(r, timeout, cfg, run[..k]).state == Auth
    && HasAuth(After(r, timeout, cfg, run[..k]).stack, id)
  }

  lemma QueuedEarlier(r: byte, timeout: nat, cfg: Config, run: seq<Event>, n: nat, j: nat, id: uint16)
    requires n <= |run| && QueuedAt(r, timeout, cfg, run[..n], j, id)
    ensures QueuedAt(r, timeout, cfg, run, j, id)
  {
    assert run[..n][..j] == run[..j] && run[..n][..j + 1] == run[..j + 1];
  }

  lemma AcceptedEarlier(r: byte, timeout: nat, cfg: Config, run: seq<Event>, n: nat, k: nat, id: uint16)
    requires n <= |run| && AcceptedAt(r, timeout, cfg, run[..n], k, id)
    ensures AcceptedAt(r, timeout, cfg, run, k, id)
  {
    assert run[..n][..k] == run[..k];
  }

  lemma TouchKeepsMessages(stack: seq<Entry>, t: Test, env: Env, m: Slots, id: uint16)
    requires HasAuth(Queue(Touch(t), env, m, stack), id)
    ensures HasAuth(stack, id)
  {
    var queue := Queue(Touch(t), env, m, stack);
    var e :| e in queue && e.message.kind == AUTH && e.message.id == id;
    var i :| 0 <= i < |queue| && queue[i] == e;
    assert stack[i] in stack && stack[i].message == e.message;
  }

  /** An AUTH appears in the queue only by a push of the user's AUTH. */
  lemma AuthAppears(env: Env, c: Client, id: uint16)
    requires HasAuth(Advance(env, c).stack, id) && !HasAuth(c.stack, id)
    ensures c.slots.output.kind == AUTH
  {
    AdvanceIsTable(env, c);
    var row := Table(env, c.slots, c);
    if row.Go? && row.op.Touch? {
      TouchKeepsMessages(c.stack, row.op.t, env, c.slots, id);
    } else {
      var e :| e in Advance(env, c).stack && e.message.kind == AUTH && e.message.id == id;
      assert e !in c.stack;
    }
  }

  lemma HandleQueues(r: byte, timeout: nat, ev: Event, c: Client, id: uint16)
    requires IsEvent(ev) && SlotsRead(c)
    requires HasAuth(Handle(r, timeout, ev, c).stack, id) && !HasAuth(c.stack, id)
    ensures ev.Iteration? && ev.line.Parsed? && ev.line.message.kind == AUTH
  {
    assert ev.Iteration?;
    TakeLineCases(ev.line, c);
    AuthAppears(Env(r, timeout, ev.now), TakeDatagram(ev.datagram, TakeLine(ev.line, c)), id);
  }

  lemma {:induction false} QueuedBefore(r: byte, timeout: nat, cfg: Config, run: seq<Event>, id: uint16)
    returns (j: nat)
    requires IsRun(run) && HasAuth(After(r, timeout, cfg, run).stack, id)
    ensures QueuedAt(r, timeout, cfg, run, j, id)
  {
    var n := |run| - 1;
    var c, ev := After(r, timeout, cfg, run[..n]), run[n];
    if HasAuth(c.stack, id) {
      j := QueuedBefore(r, timeout, cfg, run[..n], id);
      QueuedEarlier(r, timeout, cfg, run, n, j, id);
    } else {
      j := n;
      assert run[..n + 1] == run;
      SlotsAlwaysRead(r, timeout, cfg, run[..n]);
      HandleQueues(r, timeout, ev, c, id);
    }
  }

  predicate IsConnected(s: State) { s == Open || s == Join }

  lemma OpensByReply(env: Env, c: Client)
    requires Shape(c) && (c.state == Start || c.state == Auth) && IsConnected(Advance(env, c).state)
    ensures c.state == Auth && c.slots.input.kind == REPLY && c.slots.input.isOk
    ensures HasAuth(c.stack, c.slots.input.refId)
  {
    AdvanceIsTable(env, c);
    var k := FindFirst(c.stack, WithId(c.slots.input.refId), env);
    assert k < |c.stack|;
    assert c.stack[k] in c.stack;
  }

  lemma HandleOpens(r: byte, timeout: nat, ev: Event, c: Client) returns (id: uint16)
    requires IsEvent(ev) && SlotsRead(c) && Shape(c)
    requires !IsConnected(c.state) && IsConnected(Handle(r, timeout, ev, c).state)
    ensures c.state == Auth && HasAuth(c.stack, id)
    ensures ev.Iteration? && ev.datagram.Some?
    ensures var m := UdpDecoder.Decode(ev.datagram.value); m.kind == REPLY && m.isOk && m.refId == id
  {
    assert ev.Iteration?;
    TakeLineCases(ev.line, c);
    var mid := TakeDatagram(ev.datagram, TakeLine(ev.line, c));
    OpensByReply(Env(r, timeout, ev.now), mid);
    id := mid.slots.input.refId;
  }

  /**
   * Some event of the run queued the user's AUTH under an ID, and a later one, while it
   * was still queued, brought a positive REPLY to that ID.
   */
  ghost predicate Authenticated(r: byte, timeout: nat, cfg: Config, run: seq<Event>) {
    exists j: nat, k: nat, id: uint16 ::
      j < k && QueuedAt(r, timeout, cfg, run, j, id) && AcceptedAt(r, timeout, cfg, run, k, id)
  }

  lemma StaysAuthenticated(r: byte, timeout: nat, cfg: Config, run: seq<Event>, n: nat)
    requires n <= |run| && Authenticated(r, timeout, cfg, run[..n])
    ensures Authenticated(r, timeout, cfg, run)
  {
    var j: nat, k: nat, id: uint16 :|
      j < k && QueuedAt(r, timeout, cfg, run[..n], j, id) && AcceptedAt(r, timeout, cfg, run[..n], k, id);
    QueuedEarlier(r, timeout, cfg, run, n, j, id);
    AcceptedEarlier(r, timeout, cfg, run, n, k, id);
  }

  lemma BecomesAuthenticated(r: byte, timeout: nat, cfg: Config, run: seq<Event>, n: nat)
    requires IsRun(run) && |run| == n + 1
    requires !IsConnected(After(r, timeout, cfg, run[..n]).state)
    requires IsConnected(Handle(r, timeout, run[n], After(r, timeout, cfg, run[..n])).state)
    ensures Authenticated(r, timeout, cfg, run)
  {
    SlotsAlwaysRead(r, timeout, cfg, run[..n]);
    QueueShape(r, timeout, cfg, run[..n]);
    var id := HandleOpens(r, timeout, run[n], After(r, timeout, cfg, run[..n]));
    var j := QueuedBefore(r, timeout, cfg, run[..n], id);
    QueuedEarlier(r, timeout, cfg, run, n, j, id);
    assert AcceptedAt(r, timeout, cfg, run, n, id);
  }

  /** Whenever the client is in `Open` or `Join`, it has been authenticated. */
  lemma {:induction false} OpenMeansAuthenticated(r: byte, timeout: nat, cfg: Config, run: seq<Event>)
    requires IsRun(run) && IsConnected(After(r, timeout, cfg, run).state)
    ensures Authenticated(r, timeout, cfg, run)
  {
    var n := |run| - 1;
    if IsConnected(After(r, timeout, cfg, run[..n]).state) {
      OpenMeansAuthenticated(r, timeout, cfg, run[..n]);
      StaysAuthenticated(r, timeout, cfg, run, n);
    } else {
      BecomesAuthenticated(r, timeout, cfg, run, n);
    }
  }

  /** No event and no guard leads out of `End`. */
  lemma EndIsFinal(r: byte, timeout: nat, env: Env, ev: Event, c: Client)
    requires c.state == End
    ensures Handle(r, timeout, ev, c) == c && Next(Wiring(c.state), env, c.slots, c) == (None, c)
  {
  }

  // --------------------------------------------------------------- faithful resends

  /** The ID is given apart from the message. */
  lemma EncodeIgnoresId(m: Message, other: Message, cfg: Config, id: uint16)
    requires other == m.(id := other.id)
    ensures Encode(m, cfg, id) == Encode(other, cfg, id)
  {
  }

  /** A transmission of the user's line that `m` came from, under the ID that `m` carries. */
  ghost predicate IsOrigin(o: Sent, m: Message) {
    && o.cause == UserLine && o.id == m.id && o.message.(id := m.id) == m
    && exists a :: o.data == Encode(m, a, m.id)
  }

  ghost predicate HasOrigin(sent: seq<Sent>, n: nat, m: Message)
    requires n <= |sent|
  {
    exists j :: 0 <= j < n && IsOrigin(sent[j], m)
  }

  predicate IsRepeat(x: Sent) { x.cause == Resend && x.message.id != UNASSIGNED }

  /** Under its own ID, and encoded from what was the configuration by then. */
  ghost predicate IsReencoded(x: Sent) { x.id == x.message.id && exists b :: x.data == Encode(x.message, b, x.id) }

  ghost predicate Faithful(sent: seq<Sent>) {
    forall k :: 0 <= k < |sent| && IsRepeat(sent[k]) ==>
      IsReencoded(sent[k]) && HasOrigin(sent, k, sent[k].message)
  }

  /** A queued message, or one about to be queued, was sent by the user's line that it came from. */
  ghost predicate Traced(c: Client, m: Message) { m.id != UNASSIGNED ==> HasOrigin(c.sent, |c.sent|, m) }

  ghost predicate AllTraced(c: Client) {
    && Faithful(c.sent)
    && (forall e :: e in c.stack ==> Traced(c, e.message))
    && (Pending(c.slots) ==> Traced(c, c.slots.output))
  }

  lemma OriginPersists(sent: seq<Sent>, x: Sent, n: nat, m: Message)
    requires n <= |sent| && HasOrigin(sent, n, m)
    ensures HasOrigin(sent + [x], n, m) && HasOrigin(sent + [x], |sent| + 1, m)
  {
    var j :| 0 <= j < n && IsOrigin(sent[j], m);
    assert (sent + [x])[j] == sent[j];
  }

  lemma TracedPersists(c: Client, c1: Client, m: Message)
    requires Traced(c, m)
    requires c1.sent == c.sent || (|c1.sent| > 0 && c1.sent == c.sent + [c1.sent[|c1.sent| - 1]])
    ensures Traced(c1, m)
  {
    if m.id != UNASSIGNED && c1.sent != c.sent {
      OriginPersists(c.sent, c1.sent[|c1.sent| - 1], |c.sent|, m);
    }
  }

  lemma FaithfulAppend(sent: seq<Sent>, x: Sent)
    requires Faithful(sent)
    requires IsRepeat(x) ==> IsReencoded(x) && HasOrigin(sent, |sent|, x.message)
    ensures Faithful(sent + [x])
  {
    var s := sent + [x];
    forall k | 0 <= k < |s| && IsRepeat(s[k]) ensures IsReencoded(s[k]) && HasOrigin(s, k, s[k].message) {
      OriginPersists(sent, x, k, s[k].message);
    }
  }

  lemma PostKeepsFaithful(c: Client, out: Outgoing)
    requires Faithful(c.sent) && (out.Send? && out.cause == Resend ==> Traced(c, out.message))
    ensures Faithful(Post(c, out).sent)
  {
    if out.Send? { FaithfulAppend(c.sent, Post(c, out).sent[|c.sent|]); }
  }

  lemma QueueMembers(op: QueueOp, env: Env, m: Slots, stack: seq<Entry>, e: Entry)
    requires e in Queue(op, env, m, stack)
    ensures (op.Push? && e.message == m.output) || exists old_ :: old_ in stack && old_.message == e.message
  {
    var queue := Queue(op, env, m, stack);
    if op.Touch? {
      var i :| 0 <= i < |queue| && queue[i] == e;
      assert stack[i] in stack && stack[i].message == e.message;
    } else if e in stack {
    } else {
      assert op.Push?;
    }
  }

  lemma AdvanceKeepsTraced(env: Env, c: Client)
    requires AllTraced(c)
    ensures AllTraced(Advance(env, c))
  {
    AdvanceIsTable(env, c);
    SlotsAfterAdvance(env, c);
    PushNeedsPending(env, c);
    var row, c1 := Table(env, c.slots, c), Advance(env, c);
    if row.Go? {
      var queue := Queue(row.op, env, c.slots, c.stack);
      if IsResend(row) {
        var k := ResendRow(env, c);
        assert c.stack[k] in c.stack;
      }
      PostKeepsFaithful(c.(stack := queue), row.out);
      forall e | e in c1.stack ensures Traced(c1, e.message) {
        QueueMembers(row.op, env, c.slots, c.stack, e);
        TracedPersists(c, c1, e.message);
      }
    }
  }

  lemma TakeLineTraced(line: Input, c: Client)
    requires SlotsRead(c) && IsEvent(Iteration(0, line, None)) && AllTraced(c)
    ensures AllTraced(TakeLine(line, c))
  {
    TakeLineCases(line, c);
    var c1 := TakeLine(line, c);
    if Pending(c1.slots) {
      var x := c1.sent[|c.sent|];
      FaithfulAppend(c.sent, x);
      EncodeIgnoresId(line.message, c1.slots.output, line.cfg, x.id);
      assert IsOrigin(x, c1.slots.output);
    }
    forall e | e in c1.stack ensures Traced(c1, e.message) { TracedPersists(c, c1, e.message); }
  }

  lemma HandleKeepsTraced(r: byte, timeout: nat, ev: Event, c: Client)
    requires IsEvent(ev) && SlotsRead(c) && AllTraced(c)
    ensures AllTraced(Handle(r, timeout, ev, c))
  {
    if c.state != End {
      match ev
      case Quit(cfg) =>
        var c1 := SayGoodbye(c.(cfg := cfg));
        FaithfulAppend(c.sent, c1.sent[|c.sent|]);
        forall e | e in c1.stack ensures Traced(c1, e.message) { TracedPersists(c, c1, e.message); }
      case Iteration(now, line, datagram) =>
        TakeLineTraced(line, c);
        AdvanceKeepsTraced(Env(r, timeout, now), TakeDatagram(datagram, TakeLine(line, c)));
    }
  }

  /**
   * Every resend is of a message that the user sent before under the same ID, and is
   * encoded anew, whatever happened in between, unless it was queued under the ID 65535.
   */
  lemma {:induction false} ResendsHaveOrigin(r: byte, timeout: nat, cfg: Config, run: seq<Event>)
    requires IsRun(run)
    ensures AllTraced(After(r, timeout, cfg, run))
    ensures Faithful(After(r, timeout, cfg, run).sent)
  {
    if run != [] {
      var n := |run| - 1;
      ResendsHaveOrigin(r, timeout, cfg, run[..n]);
      SlotsAlwaysRead(r, timeout, cfg, run[..n]);
      HandleKeepsTraced(r, timeout, run[n], After(r, timeout, cfg, run[..n]));
    }
  }

  /** The user's MSG that went out with these bytes. */
  predicate IsFirst(o: Sent, x: Sent) {
    o.cause == UserLine && o.message.kind == MSG && o.id == x.id && o.data == x.data
  }

  /** A MSG is encoded without the configuration. */
  lemma MessageIgnoresConfig(m: Message, a: Config, b: Config, id: uint16)
    ensures m.kind == MSG ==> Encode(m, a, id) == Encode(m, b, id)
  {
  }

  /** So a resend of a MSG repeats its first transmission byte for byte. */
  lemma ResendsAreFaithful(r: byte, timeout: nat, cfg: Config, run: seq<Event>, k: nat)
    requires IsRun(run) && k < |After(r, timeout, cfg, run).sent|
    ensures var sent := After(r, timeout, cfg, run).sent;
            sent[k].message.kind == MSG && IsRepeat(sent[k]) ==>
              sent[k].id == sent[k].message.id && exists j :: 0 <= j < k && IsFirst(sent[j], sent[k])
  {
    ResendsHaveOrigin(r, timeout, cfg, run);
    var sent := After(r, timeout, cfg, run).sent;
    var x := sent[k];
    if x.message.kind == MSG && IsRepeat(x) {
      var j :| 0 <= j < k && IsOrigin(sent[j], x.message);
      var a :| sent[j].data == Encode(x.message, a, x.id);
      var b :| x.data == Encode(x.message, b, x.id);
      MessageIgnoresConfig(x.message, a, b, x.id);
      assert IsFirst(sent[j], x);
    }
  }

  lemma ChannelSlice(w: bytes, head: bytes, channel: bytes, author: bytes)
    requires w == head + Field(channel) + Field(author) && |head| == 3
    ensures |w| == |channel| + |author| + 5 && w[3..|w| - |author| - 2] == channel
  {
  }

  lemma WireFollowsChannel(m: Message, a: Config, b: Config, id: uint16)
    requires m.kind == JOIN
    ensures Wire(m, a, id) == Wire(m, b, id) <==> a.channel == b.channel
  {
    ChannelSlice(Wire(m, a, id).value, Header(JOIN, id), a.channel, m.author);
    ChannelSlice(Wire(m, b, id).value, Header(JOIN, id), b.channel, m.author);
  }

  lemma SentWhole(m: Message, cfg: Config, id: uint16)
    requires Wire(m, cfg, id).Some? && |Wire(m, cfg, id).value| < 0x1_0000
    ensures Wire(m, cfg, id) == Some(Encode(m, cfg, id))
  {
    var w := Wire(m, cfg, id).value;
    assert w[..|w| % 0x1_0000] == w;
  }

  predicate JoinWhole(m: Message, cfg: Config) { |cfg.channel| + |m.author| + 5 < 0x1_0000 }

  /**
   * AUTH and JOIN are encoded from the current configuration: the bytes of a JOIN that
   * are sent are repeated while the channel is unchanged, and for datagrams that are
   * not cut to 16 bits of length only then.
   */
  lemma JoinFollowsChannel(m: Message, a: Config, b: Config, id: uint16)
    requires m.kind == JOIN
    ensures a.channel == b.channel ==> Encode(m, a, id) == Encode(m, b, id)
    ensures JoinWhole(m, a) && JoinWhole(m, b) ==> (Encode(m, a, id) == Encode(m, b, id) <==> a.channel == b.channel)
  {
    WireFollowsChannel(m, a, b, id);
    if JoinWhole(m, a) && JoinWhole(m, b) {
      SentWhole(m, a, id);
      SentWhole(m, b, id);
    }
  }

  predicate AuthWhole(m: Message, cfg: Config) {
    ZeroFree(cfg.username) && |cfg.username| + |m.author| + |cfg.secret| + 6 < 0x1_0000
  }

  predicate SameLogin(a: Config, b: Config) { a.username == b.username && a.secret == b.secret }

  /** Two fields that end at the first zero byte, and what follows them. */
  lemma FirstZero(s: bytes, a: bytes, t: bytes, b: bytes)
    requires ZeroFree(a) && ZeroFree(b) && Field(a) + s == Field(b) + t
    ensures a == b && s == t
  {
    var w := Field(a) + s;
    assert w == Field(b) + t;
    assert w[|a|] == 0 && w[|b|] == 0;
    assert a == w[..|a|] && b == w[..|b|];
    assert s == w[|a| + 1..] && t == w[|b| + 1..];
  }

  lemma AuthParts(m: Message, cfg: Config, id: uint16)
    requires m.kind == AUTH
    ensures Wire(m, cfg, id) ==
            Some(Header(AUTH, id) + (Field(cfg.username) + (Field(m.author) + Field(cfg.secret))))
  {
    var h, u, n, s := Header(AUTH, id), Field(cfg.username), Field(m.author), Field(cfg.secret);
    Regroup(h, u, n + s);
    Regroup(h + u, n, s);
  }

  lemma WireFollowsLogin(m: Message, a: Config, b: Config, id: uint16)
    requires m.kind == AUTH && ZeroFree(a.username) && ZeroFree(b.username)
    ensures Wire(m, a, id) == Wire(m, b, id) <==> SameLogin(a, b)
  {
    AuthParts(m, a, id);
    AuthParts(m, b, id);
    if Wire(m, a, id) == Wire(m, b, id) {
      var h, n := Header(AUTH, id), Field(m.author);
      var s, t := n + Field(a.secret), n + Field(b.secret);
      SamePrefix(h, Field(a.username) + s, Field(b.username) + t);
      FirstZero(s, a.username, t, b.username);
      SamePrefix(n, Field(a.secret), Field(b.secret));
      assert a.secret == Field(a.secret)[..|Field(a.secret)| - 1];
      assert b.secret == Field(b.secret)[..|Field(b.secret)| - 1];
    }
  }

  lemma SamePrefix(p: bytes, s: bytes, t: bytes)
    requires p + s == p + t
    ensures s == t
  {
    assert s == (p + s)[|p|..] && t == (p + t)[|p|..];
  }

  /**
   * The same for an AUTH and the login: sent again, it carries the user name and the
   * secret of the configuration of that moment, so its bytes are repeated if and only
   * if both are unchanged.
   */
  lemma AuthFollowsLogin(m: Message, a: Config, b: Config, id: uint16)
    requires m.kind == AUTH
    ensures SameLogin(a, b) ==> Encode(m, a, id) == Encode(m, b, id)
    ensures AuthWhole(m, a) && AuthWhole(m, b) ==> (Encode(m, a, id) == Encode(m, b, id) <==> SameLogin(a, b))
  {
    if AuthWhole(m, a) && AuthWhole(m, b) {
      WireFollowsLogin(m, a, b, id);
      SentWhole(m, a, id);
      SentWhole(m, b, id);
    }
  }
}
