/** Runs in which an AUTH or a JOIN is sent again with other contents, and one that a late reply ends. */
module UdpFsmRenewed {
  import opened Bytes
  import opened Messages
  import opened UdpEncoder
  import opened UdpFsm
  import opened UdpFsmTable
  import opened UdpFsmQueue
  import opened UdpFsmDrain
  import opened UdpFsmWire
  import opened UdpFsmSafety
  import opened UdpFsmTurns
  import opened UdpFsmWitness
  import UdpFsmBudget
  import UdpDecoder

  predicate IsJoinCommand(m: Message) {
    m.kind == JOIN && m.id == UNASSIGNED && |m.author| <= MAX_AUTHOR && |m.text| <= MAX_TEXT
  }

  predicate IsReply(d: Datagram, ok: bool, a: byte, b: byte) {
    var m := UdpDecoder.Decode(d); m.kind == REPLY && m.isOk == ok && m.id == 0 && m.refId == Word(a, b)
  }

  /** One more event, as a step and as a part of the run. */
  lemma OneMore(r: byte, timeout: nat, cfg: Config, run: seq<Event>, ev: Event, c: Client)
    requires After(r, timeout, cfg, run) == c && IsRun(run) && IsEvent(ev)
    ensures IsRun(run + [ev]) && After(r, timeout, cfg, run + [ev]) == Handle(r, timeout, ev, c)
  {
    AfterStep(r, timeout, cfg, run, ev);
  }

  lemma TakesCommand(c: Client, cfg: Config, m: Message)
    requires c.slots == EMPTY && (IsAuthCommand(m) || IsJoinCommand(m))
    ensures TakeLine(Parsed(cfg, m), c) == Told(c, cfg, m).(slots := Slots(NOTHING, m.(id := Counter(c))))
  {
    UdpFsmBudget.PreviousId(c.issued);
  }

  lemma CommandPushed(r: byte, timeout: nat, now: int, c: Client, cfg: Config, m: Message)
    requires c.slots == EMPTY && c.stack == []
    requires (c.state == Start && IsAuthCommand(m)) || (c.state == Open && IsJoinCommand(m))
    ensures Handle(r, timeout, Iteration(now, Parsed(cfg, m), None), c) ==
            Told(c, cfg, m).(state := if m.kind == AUTH then Auth else Join,
                             stack := [Entry(now, r, m.(id := Counter(c)))])
  {
    var env, mid := Env(r, timeout, now), TakeLine(Parsed(cfg, m), c);
    TakesCommand(c, cfg, m);
    CommandRow(env, mid);
    AdvanceIsTable(env, mid);
    assert Queue(Push, env, mid.slots, []) == [NewEntry(env, mid.slots.output)];
  }

  lemma FreshRow(env: Env, c: Client, e: Entry)
    requires (c.state == Auth && c.slots.output.kind == AUTH) || (c.state == Join && c.slots.output.kind == JOIN)
    requires c.slots.input.kind == NONE && c.stack == [e]
    requires e.retransmissions > 0 && env.now - e.timestamp <= env.timeout
    ensures Table(env, c.slots, c) == Refuse(true)
  {
  }

  /** While a fresh AUTH or JOIN is queued, another one is sent all the same, and the configuration kept. */
  lemma CommandOnlySent(r: byte, timeout: nat, now: int, c: Client, cfg: Config, m: Message, e: Entry)
    requires c.slots == EMPTY && c.stack == [e] && e.retransmissions > 0 && now - e.timestamp <= timeout
    requires (c.state == Auth && IsAuthCommand(m)) || (c.state == Join && IsJoinCommand(m))
    ensures Handle(r, timeout, Iteration(now, Parsed(cfg, m), None), c) == Told(c, cfg, m)
  {
    var env, mid := Env(r, timeout, now), TakeLine(Parsed(cfg, m), c);
    TakesCommand(c, cfg, m);
    FreshRow(env, mid, e);
    AdvanceIsTable(env, mid);
  }

  // ------------------------------------------------------------------- another login

  /** The resend of an entry with the configuration of the moment. */
  function Renewed(c: Client, m: Message): Sent { Sent(Resend, m, m.id, Encode(m, c.cfg, m.id)) }

  lemma AuthResent(r: byte, timeout: nat, now: int, c: Client, e: Entry)
    requires c.state == Auth && c.slots == EMPTY && c.stack == [e] && e.message.kind == AUTH
    requires e.retransmissions > 0 && now - e.timestamp > timeout && e.message.id != UNASSIGNED
    ensures Handle(r, timeout, Idle(now), c).sent == c.sent + [Renewed(c, e.message)]
  {
    AdvanceIsTable(Env(r, timeout, now), c);
  }

  /** `/auth`, `/auth` with another login before the first was answered, and silence. */
  function TwoLogins(timeout: nat, a: Config, m: Message, b: Config, n: Message): seq<Event> {
    [Iteration(0, Parsed(a, m), None), Iteration(0, Parsed(b, n), None), Idle(timeout + 1)]
  }

  /**
   * The login that is sent again is not the one that was sent first: the second user name
   * and secret go out under the first ID and display name, and the bytes are those of
   * the first transmission if and only if both logins are the same.
   */
  lemma OtherLoginResent(r: byte, timeout: nat, cfg: Config, a: Config, m: Message, b: Config, n: Message)
    requires r > 0 && IsAuthCommand(m) && IsAuthCommand(n)
    ensures var run := TwoLogins(timeout, a, m, b, n); var sent := After(r, timeout, cfg, run).sent;
            && IsRun(run) && |sent| == 3
            && sent[0] == Sent(UserLine, m, 0, Encode(m, a, 0))
            && sent[2] == Sent(Resend, m.(id := 0), 0, Encode(m, b, 0))
            && (AuthWhole(m, a) && AuthWhole(m, b) ==> (sent[2].data == sent[0].data <==> SameLogin(a, b)))
  {
    var run, first := TwoLogins(timeout, a, m, b, n), m.(id := 0);
    assert run[..1] == [] + [run[0]] && run[..2] == run[..1] + [run[1]] && run == run[..2] + [run[2]];
    AfterStep(r, timeout, cfg, [], run[0]);
    AfterStep(r, timeout, cfg, run[..1], run[1]);
    AfterStep(r, timeout, cfg, run[..2], run[2]);
    CommandPushed(r, timeout, 0, Initial(cfg), a, m);
    var c := After(r, timeout, cfg, run[..1]);
    CommandOnlySent(r, timeout, 0, c, b, n, Entry(0, r, first));
    AuthResent(r, timeout, timeout + 1, Told(c, b, n), Entry(0, r, first));
    EncodeIgnoresId(m, first, b, 0);
    AuthFollowsLogin(m, a, b, 0);
  }

  // ----------------------------------------------------------------- another channel

  /** The client after a positive REPLY to the AUTH with the ID 0. */
  function Accepted(c: Client, d: Datagram): Client {
    Transmit(c, Response, Confirmation(c.cfg, UdpDecoder.Decode(d))).(state := Open, stack := [])
  }

  lemma AuthAccepted(r: byte, timeout: nat, now: int, c: Client, d: Datagram, e: Entry)
    requires c.state == Auth && c.slots == EMPTY && c.stack == [e] && e.message.kind == AUTH && e.message.id == 0
    requires IsReply(d, true, 0, 0)
    ensures Handle(r, timeout, Iteration(now, NoLine, Some(d)), c) == Accepted(c, d)
    ensures Accepted(c, d).issued == c.issued
  {
    var mid := TakeDatagram(Some(d), c);
    AuthReplyRow(Env(r, timeout, now), mid);
    AdvanceIsTable(Env(r, timeout, now), mid);
  }

  lemma JoinTimedOut(r: byte, timeout: nat, now: int, c: Client, e: Entry)
    requires c.state == Join && c.slots == EMPTY && c.stack == [e] && e.message.kind == JOIN
    requires now - e.timestamp > timeout
    ensures Handle(r, timeout, Idle(now), c) == c.(state := Open, stack := [e.Decremented(now)])
  {
    AdvanceIsTable(Env(r, timeout, now), c);
  }

  lemma JoinResent(r: byte, timeout: nat, now: int, c: Client, e: Entry)
    requires c.state == Open && c.slots == EMPTY && c.stack == [e] && e.message.kind == JOIN
    requires e.retransmissions > 0 && e.message.id != UNASSIGNED
    ensures Handle(r, timeout, Idle(now), c).sent == c.sent + [Renewed(c, e.message)]
  {
    AdvanceIsTable(Env(r, timeout, now), c);
  }

  /** `/auth` and its positive REPLY. */
  function LoggingIn(a: Config, auth: Message, d: Datagram): seq<Event> {
    [Iteration(0, Parsed(a, auth), None), Iteration(0, NoLine, Some(d))]
  }

  lemma LoggedIn(r: byte, timeout: nat, cfg: Config, a: Config, auth: Message, d: Datagram)
    requires IsAuthCommand(auth) && IsReply(d, true, 0, 0)
    ensures var run := LoggingIn(a, auth, d); var c := After(r, timeout, cfg, run);
            IsRun(run) && c.state == Open && c.slots == EMPTY && c.stack == [] && c.issued == 1 && |c.sent| == 2
  {
    var run := LoggingIn(a, auth, d);
    assert run[..1] == [] + [run[0]] && run == run[..1] + [run[1]];
    AfterStep(r, timeout, cfg, [], run[0]);
    AfterStep(r, timeout, cfg, run[..1], run[1]);
    CommandPushed(r, timeout, 0, Initial(cfg), a, auth);
    AuthAccepted(r, timeout, 0, After(r, timeout, cfg, run[..1]), d, Entry(0, r, auth.(id := 0)));
  }

  /** The same, and `/join`. */
  function Joining(a: Config, auth: Message, d: Datagram, m: Message): seq<Event> {
    LoggingIn(a, auth, d) + [Iteration(0, Parsed(a, m), None)]
  }

  /** A JOIN with the ID 1 is queued, and was sent with the channel of its moment. */
  predicate HasJoined(c: Client, r: byte, a: Config, m: Message) {
    && c.state == Join && c.slots == EMPTY && c.stack == [Entry(0, r, m.(id := 1))]
    && c.issued == 2 && |c.sent| == 3 && c.sent[2] == Sent(UserLine, m, 1, Encode(m, a, 1))
  }

  lemma Joins(r: byte, timeout: nat, c: Client, a: Config, m: Message)
    requires IsJoinCommand(m) && c.state == Open && c.slots == EMPTY && c.stack == [] && c.issued == 1 && |c.sent| == 2
    ensures HasJoined(Handle(r, timeout, Iteration(0, Parsed(a, m), None), c), r, a, m)
  {
    CommandPushed(r, timeout, 0, c, a, m);
  }

  lemma JoinQueued(r: byte, timeout: nat, cfg: Config, a: Config, auth: Message, d: Datagram, m: Message)
    requires IsAuthCommand(auth) && IsReply(d, true, 0, 0) && IsJoinCommand(m)
    ensures var run := Joining(a, auth, d, m); IsRun(run) && HasJoined(After(r, timeout, cfg, run), r, a, m)
  {
    var before := LoggingIn(a, auth, d);
    var c := After(r, timeout, cfg, before);
    LoggedIn(r, timeout, cfg, a, auth, d);
    OneMore(r, timeout, cfg, before, Iteration(0, Parsed(a, m), None), c);
    Joins(r, timeout, c, a, m);
  }

  /** Then `/join` with another channel, and silence. */
  function OtherChannel(timeout: nat, b: Config, n: Message): seq<Event> {
    [Iteration(0, Parsed(b, n), None), Idle(timeout + 1), Idle(timeout + 1)]
  }

  /** The second JOIN is only sent, the first one times out and is sent again. */
  lemma JoinRenewed(r: byte, timeout: nat, c: Client, a: Config, m: Message, b: Config, n: Message)
    requires r > 1 && IsJoinCommand(m) && IsJoinCommand(n) && HasJoined(c, r, a, m)
    ensures var more := OtherChannel(timeout, b, n);
            Handle(r, timeout, more[2], Handle(r, timeout, more[1], Handle(r, timeout, more[0], c))).sent ==
            Told(c, b, n).sent + [Sent(Resend, m.(id := 1), 1, Encode(m.(id := 1), b, 1))]
  {
    var e := Entry(0, r, m.(id := 1));
    CommandOnlySent(r, timeout, 0, c, b, n, e);
    JoinTimedOut(r, timeout, timeout + 1, Told(c, b, n), e);
    var c2 := Told(c, b, n).(state := Open, stack := [e.Decremented(timeout + 1)]);
    JoinResent(r, timeout, timeout + 1, c2, e.Decremented(timeout + 1));
  }

  lemma ThreeMore(r: byte, timeout: nat, cfg: Config, run: seq<Event>, more: seq<Event>, c: Client)
    requires After(r, timeout, cfg, run) == c && |more| == 3
    ensures After(r, timeout, cfg, run + more) ==
            Handle(r, timeout, more[2], Handle(r, timeout, more[1], Handle(r, timeout, more[0], c)))
  {
    AfterStep(r, timeout, cfg, run, more[0]);
    AfterStep(r, timeout, cfg, run + [more[0]], more[1]);
    AfterStep(r, timeout, cfg, run + [more[0]] + [more[1]], more[2]);
    OneByOne(run, more);
  }

  lemma OneByOne(run: seq<Event>, more: seq<Event>)
    requires |more| == 3
    ensures run + more == run + [more[0]] + [more[1]] + [more[2]]
  {
  }

  /**
   * The JOIN that is sent again asks for the second channel under the first ID and
   * display name; its bytes are those of the first transmission if and only if the
   * channels are the same.
   */
  lemma OtherChannelResent(r: byte, timeout: nat, cfg: Config, a: Config, auth: Message, d: Datagram, m: Message,
      b: Config, n: Message)
    requires r > 1 && IsAuthCommand(auth) && IsReply(d, true, 0, 0) && IsJoinCommand(m) && IsJoinCommand(n)
    ensures var run := Joining(a, auth, d, m) + OtherChannel(timeout, b, n);
            var sent := After(r, timeout, cfg, run).sent;
            && IsRun(run) && |sent| == 5
            && sent[2] == Sent(UserLine, m, 1, Encode(m, a, 1))
            && sent[4] == Sent(Resend, m.(id := 1), 1, Encode(m, b, 1))
            && (JoinWhole(m, a) && JoinWhole(m, b) ==> (sent[4].data == sent[2].data <==> a.channel == b.channel))
  {
    var before := Joining(a, auth, d, m);
    var c := After(r, timeout, cfg, before);
    JoinQueued(r, timeout, cfg, a, auth, d, m);
    ThreeMore(r, timeout, cfg, before, OtherChannel(timeout, b, n), c);
    assert IsRun(OtherChannel(timeout, b, n));
    JoinRenewed(r, timeout, c, a, m, b, n);
    EncodeIgnoresId(m, m.(id := 1), b, 1);
    JoinFollowsChannel(m, a, b, 1);
  }

  // -------------------------------------------------------------------- a late reply

  /** With the JOIN timed out, a REPLY that quotes its ID bytes is taken for an unexpected one. */
  lemma LateReply(r: byte, timeout: nat, c: Client, a: Config, m: Message, late: Datagram, ok: bool)
    requires HasJoined(c, r, a, m) && m.kind == JOIN && IsReply(late, ok, 1, 0)
    ensures var c1 := Handle(r, timeout, Idle(timeout + 1), c);
            Handle(r, timeout, Iteration(timeout + 1, NoLine, Some(late)), c1).state == End
  {
    var e := Entry(0, r, m.(id := 1));
    JoinTimedOut(r, timeout, timeout + 1, c, e);
    UnexpectedReply(r, timeout, timeout + 1, c.(state := Open, stack := [e.Decremented(timeout + 1)]), late);
  }

  /**
   * A server that answers a JOIN after its timeout ends the client: the JOIN has the ID 1,
   * sent as the bytes 1 and 0, and the reference that quotes them reads as 256.
   */
  lemma LateReplyEnds(r: byte, timeout: nat, cfg: Config, a: Config, auth: Message, d: Datagram, m: Message,
      late: Datagram, ok: bool)
    requires IsAuthCommand(auth) && IsReply(d, true, 0, 0) && IsJoinCommand(m) && IsReply(late, ok, 1, 0)
    ensures var run := Joining(a, auth, d, m) + [Idle(timeout + 1)] + [Iteration(timeout + 1, NoLine, Some(late))];
            IsRun(run) && After(r, timeout, cfg, run).state == End
  {
    var before, wait := Joining(a, auth, d, m), Idle(timeout + 1);
    JoinQueued(r, timeout, cfg, a, auth, d, m);
    var c := After(r, timeout, cfg, before);
    LateReply(r, timeout, c, a, m, late, ok);
    OneMore(r, timeout, cfg, before, wait, c);
    OneMore(r, timeout, cfg, before + [wait], Iteration(timeout + 1, NoLine, Some(late)),
            Handle(r, timeout, wait, c));
  }
}
