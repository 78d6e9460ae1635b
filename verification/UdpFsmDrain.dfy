/** Left alone, the client empties its queue; and when it cannot. */
module UdpFsmDrain {
  import opened Bytes
  import opened Messages
  import opened Sequences
  import opened UdpFsm
  import opened UdpFsmTable
  import opened UdpFsmQueue

  function Weight(stack: seq<Entry>): nat {
    if stack == [] then 0 else stack[0].retransmissions + 1 + Weight(stack[1..])
  }

  /** A JOIN in `Open` is about to move the client to `Join`; one without budget in `Join` to move it back. */
  function Phase(c: Client): nat {
    if c.stack == [] || c.stack[0].message.kind != JOIN then 0
    else if c.state == Open && c.stack[0].retransmissions > 0 then 1
    else if c.state == Join && c.stack[0].retransmissions == 0 then 1
    else 0
  }

  /** What every transition without input uses up. */
  function Measure(c: Client): nat { 2 * Weight(c.stack) + Phase(c) }

  lemma {:induction false} EraseWeighs(stack: seq<Entry>, t: Test, env: Env)
    ensures Weight(EraseIf(stack, t, env)) <= Weight(stack)
    ensures |EraseIf(stack, t, env)| < |stack| ==> Weight(EraseIf(stack, t, env)) < Weight(stack)
  {
    if stack != [] {
      EraseWeighs(stack[1..], t, env);
      var rest := EraseIf(stack[1..], t, env);
      assert ([stack[0]] + rest)[1..] == rest;
    }
  }

  lemma {:induction false} TouchWeighs(stack: seq<Entry>, k: nat, now: int)
    requires k < |stack|
    ensures Weight(stack[k := stack[k].Decremented(now)]) ==
            Weight(stack) - if stack[k].retransmissions > 0 then 1 else 0
  {
    var touched := stack[k := stack[k].Decremented(now)];
    if k == 0 {
      assert touched[1..] == stack[1..];
    } else {
      TouchWeighs(stack[1..], k - 1, now);
      assert touched[1..] == stack[1..][k - 1 := stack[k].Decremented(now)];
    }
  }

  predicate Quiet(c: Client) { c.slots.input.kind == NONE && c.slots.output.kind == NONE }

  predicate AllExpired(timeout: nat, now: int, stack: seq<Entry>) {
    forall e :: e in stack ==> now - e.timestamp > timeout
  }

  lemma AuthIdle(env: Env, c: Client)
    requires c.state == Auth && Shape(c) && Quiet(c)
    ensures var c1 := Advance(env, c);
            c1.state == Auth && Quiet(c1) && (c1.stack == c.stack || Measure(c1) < Measure(c)) &&
            (c.stack != [] && AllExpired(env.timeout, env.now, c.stack) ==> Measure(c1) < Measure(c))
  {
    AdvanceIsTable(env, c);
    AnyErases(Exhausted, env, c);
    EraseWeighs(c.stack, Exhausted, env);
    var k := FindFirst(c.stack, Expired(AUTH), env);
    if k < |c.stack| {
      TouchWeighs(c.stack, k, env.now);
      assert !Any(Exhausted, env, c) ==> !Holds(Exhausted, c.stack[k], env);
    } else if c.stack != [] {
      assert !Holds(Expired(AUTH), c.stack[0], env) && c.stack[0] in c.stack;
    }
  }

  lemma OpenSweeps(env: Env, c: Client)
    requires c.state == Open && Quiet(c) && !Any(Resendable(JOIN), env, c) && Any(Exhausted, env, c)
    ensures var c1 := Advance(env, c);
            c1.state == Open && Quiet(c1) && Measure(c1) < Measure(c)
  {
    AdvanceIsTable(env, c);
    AnyErases(Exhausted, env, c);
    EraseWeighs(c.stack, Exhausted, env);
  }

  lemma OpenResends(env: Env, c: Client)
    requires c.state == Open && Shape(c) && Quiet(c)
    requires !Any(Resendable(JOIN), env, c) && !Any(Exhausted, env, c)
    ensures var c1 := Advance(env, c);
            c1.state == Open && Quiet(c1) && (c1.stack == c.stack || Measure(c1) < Measure(c)) &&
            (c.stack != [] && AllExpired(env.timeout, env.now, c.stack) ==> Measure(c1) < Measure(c))
  {
    AdvanceIsTable(env, c);
    if c.stack != [] {
      assert !Holds(Resendable(JOIN), c.stack[0], env) && !Holds(Exhausted, c.stack[0], env);
      assert c.stack[0].message.kind == MSG && c.stack[0] in c.stack;
      var k := FindFirst(c.stack, Expired(MSG), env);
      if k < |c.stack| {
        TouchWeighs(c.stack, k, env.now);
        assert !Holds(Exhausted, c.stack[k], env);
      } else {
        assert !Holds(Expired(MSG), c.stack[0], env);
      }
    }
  }

  lemma OpenIdle(env: Env, c: Client)
    requires c.state == Open && Shape(c) && Quiet(c)
    ensures var c1 := Advance(env, c);
            c1.state in {Open, Join} && Quiet(c1) &&
            ((c1.state == Open && c1.stack == c.stack) || Measure(c1) < Measure(c)) &&
            (c.stack != [] && AllExpired(env.timeout, env.now, c.stack) ==> Measure(c1) < Measure(c))
  {
    if Any(Resendable(JOIN), env, c) {
      AdvanceIsTable(env, c);
      assert FindFirst(c.stack, Resendable(JOIN), env) == 0;
    } else if Any(Exhausted, env, c) {
      OpenSweeps(env, c);
    } else {
      OpenResends(env, c);
    }
  }

  lemma JoinIdle(env: Env, c: Client)
    requires c.state == Join && Shape(c) && Quiet(c)
    ensures var c1 := Advance(env, c);
            c1.state in {Open, Join} && Quiet(c1) &&
            ((c1.state == Join && c1.stack == c.stack) || Measure(c1) < Measure(c)) &&
            (AllExpired(env.timeout, env.now, c.stack) ==> Measure(c1) < Measure(c))
  {
    AdvanceIsTable(env, c);
    var k := FindFirst(c.stack, Expired(JOIN), env);
    if k < |c.stack| {
      assert k == 0;
      TouchWeighs(c.stack, k, env.now);
    } else {
      assert !Holds(Expired(JOIN), c.stack[0], env) && c.stack[0] in c.stack;
    }
  }

  /**
   * One iteration without input: a transition uses up the measure, and if the queue is
   * not empty and everything in it has expired, some transition is taken.
   */
  lemma IdleStep(env: Env, c: Client)
    requires Shape(c) && Quiet(c) && c.state != End
    ensures var c1 := Advance(env, c);
            c1.state != End && Shape(c1) && Quiet(c1) &&
            ((c1.state == c.state && c1.stack == c.stack) || Measure(c1) < Measure(c)) &&
            (c.stack != [] && AllExpired(env.timeout, env.now, c.stack) ==> Measure(c1) < Measure(c))
  {
    AdvanceKeepsShape(env, c);
    match c.state
    case Start =>
    case Auth => AuthIdle(env, c);
    case Open => OpenIdle(env, c);
    case Join => JoinIdle(env, c);
  }

  function Idle(now: int): Event { Iteration(now, NoLine, None) }

  /** The client after iterations without input at the given times. */
  function Rest(r: byte, timeout: nat, c: Client, times: seq<int>): Client
    decreases |times|
  {
    if times == [] then c else Rest(r, timeout, Handle(r, timeout, Idle(times[0]), c), times[1..])
  }

  /** At each of the times, every entry queued by then has expired. */
  predicate Expiring(r: byte, timeout: nat, c: Client, times: seq<int>)
    decreases |times|
  {
    times != [] ==>
      AllExpired(timeout, times[0], c.stack) && Expiring(r, timeout, Handle(r, timeout, Idle(times[0]), c), times[1..])
  }

  /** Times further apart than the timeout, the first one that far after every timestamp, will do. */
  predicate Spaced(timeout: nat, stack: seq<Entry>, times: seq<int>) {
    && (times != [] ==> AllExpired(timeout, times[0], stack))
    && (forall i :: 1 <= i < |times| ==> times[i] - times[i - 1] > timeout)
  }

  lemma AdvanceTimestamps(env: Env, c: Client)
    ensures forall e :: e in Advance(env, c).stack ==> e in c.stack || e.timestamp == env.now
  {
    AdvanceIsTable(env, c);
  }

  lemma {:induction false} SpacedIsExpiring(r: byte, timeout: nat, c: Client, times: seq<int>)
    requires Spaced(timeout, c.stack, times)
    ensures Expiring(r, timeout, c, times)
    decreases |times|
  {
    if times != [] {
      AdvanceTimestamps(Env(r, timeout, times[0]), c);
      var rest := times[1..];
      assert forall i :: 1 <= i < |rest| ==> rest[i] == times[i + 1] && rest[i - 1] == times[i];
      if rest != [] { assert rest[0] == times[1]; }
      SpacedIsExpiring(r, timeout, Handle(r, timeout, Idle(times[0]), c), rest);
    }
  }

  /** Enough expired iterations without input empty the queue and never leave the client in `Join`. */
  lemma {:induction false} Drains(r: byte, timeout: nat, c: Client, times: seq<int>)
    requires Shape(c) && Quiet(c) && c.state != End
    requires Expiring(r, timeout, c, times) && |times| >= Measure(c)
    ensures var c1 := Rest(r, timeout, c, times); c1.stack == [] && c1.state !in {Join, End}
    decreases |times|
  {
    if times != [] {
      IdleStep(Env(r, timeout, times[0]), c);
      Drains(r, timeout, Handle(r, timeout, Idle(times[0]), c), times[1..]);
    } else {
      assert c.stack == [];
    }
  }

  function IdleEvents(times: seq<int>): seq<Event> {
    if times == [] then [] else [Idle(times[0])] + IdleEvents(times[1..])
  }

  lemma {:induction false} RestIsRun(r: byte, timeout: nat, cfg: Config, run: seq<Event>, times: seq<int>)
    ensures After(r, timeout, cfg, run + IdleEvents(times)) == Rest(r, timeout, After(r, timeout, cfg, run), times)
    decreases |times|
  {
    if times == [] {
      assert run + IdleEvents(times) == run;
    } else {
      var next := run + [Idle(times[0])];
      assert next[..|next| - 1] == run;
      RestIsRun(r, timeout, cfg, next, times[1..]);
      Regroup(run, [Idle(times[0])], IdleEvents(times[1..]));
    }
  }

  /**
   * Every run that leaves the slots empty drains: continued without input at times
   * further apart than the timeout, it reaches an empty queue outside `Join`.
   */
  lemma EveryRunDrains(r: byte, timeout: nat, cfg: Config, run: seq<Event>, times: seq<int>)
    requires var c := After(r, timeout, cfg, run);
             Quiet(c) && c.state != End && Spaced(timeout, c.stack, times) && |times| >= Measure(c)
    ensures var c := After(r, timeout, cfg, run + IdleEvents(times)); c.stack == [] && c.state !in {Join, End}
  {
    QueueShape(r, timeout, cfg, run);
    SpacedIsExpiring(r, timeout, After(r, timeout, cfg, run), times);
    Drains(r, timeout, After(r, timeout, cfg, run), times);
    RestIsRun(r, timeout, cfg, run, times);
  }

  // ------------------------------------------------------------ a CONFIRM in the slot

  /** An input slot holding a CONFIRM that no guard of `Auth` or `Join` consumes. */
  predicate Stuck(c: Client) {
    && c.slots.input.kind == CONFIRM && c.stack != []
    && (c.state == Auth || (c.state == Join && forall e :: e in c.stack ==> e.message.id != c.slots.input.id))
  }

  /** Then the timers never run again: iterations without input change nothing. */
  lemma {:induction false} StuckForever(r: byte, timeout: nat, c: Client, times: seq<int>)
    requires Stuck(c) && c.slots.output.kind == NONE
    ensures Rest(r, timeout, c, times) == c
    decreases |times|
  {
    if times != [] {
      var env := Env(r, timeout, times[0]);
      AdvanceIsTable(env, c);
      var k := FindFirst(c.stack, WithId(c.slots.input.id), env);
      if k < |c.stack| { assert c.stack[k] in c.stack; }
      StuckForever(r, timeout, c, times[1..]);
    }
  }

  lemma ConfirmPassesOpen(env: Env, c: Client)
    requires c.state == Open && c.slots.input.kind == CONFIRM && c.slots.output.kind == NONE
    ensures var c1 := Advance(env, c);
            Quiet(c1) && c1.state == Open && Weight(c1.stack) <= Weight(c.stack)
  {
    AdvanceIsTable(env, c);
    EraseWeighs(c.stack, WithId(Swap(c.slots.input.id)), env);
  }

  lemma ConfirmPassesJoin(env: Env, c: Client)
    requires c.state == Join && c.slots.input.kind == CONFIRM && c.slots.output.kind == NONE
    requires c.stack != [] && !Stuck(c)
    ensures var c1 := Advance(env, c); Quiet(c1) && c1.state == Join && c1.stack == c.stack
  {
    AdvanceIsTable(env, c);
    var e :| e in c.stack && e.message.id == c.slots.input.id;
    var i :| 0 <= i < |c.stack| && c.stack[i] == e;
    assert Holds(WithId(c.slots.input.id), c.stack[i], env);
  }

  /** A consumed or discarded CONFIRM leaves quiet slots, and the queue no heavier. */
  lemma ConfirmPasses(env: Env, c: Client)
    requires Shape(c) && c.state in {Open, Join}
    requires c.slots.input.kind == CONFIRM && c.slots.output.kind == NONE && !Stuck(c)
    ensures var c1 := Advance(env, c);
            Quiet(c1) && c1.state == c.state && Weight(c1.stack) <= Weight(c.stack)
  {
    if c.state == Open { ConfirmPassesOpen(env, c); } else { ConfirmPassesJoin(env, c); }
  }

  /** With no BYE waiting, enough expired idle iterations empty the queue unless a CONFIRM blocks the timers. */
  lemma DrainsUnlessStuck(r: byte, timeout: nat, c: Client, times: seq<int>)
    requires Shape(c) && SlotsRead(c) && c.slots.output.kind == NONE && c.state != End
    requires Expiring(r, timeout, c, times) && |times| >= 2 * Weight(c.stack) + 2
    ensures Rest(r, timeout, c, times).stack == [] <==> !Stuck(c)
  {
    if Stuck(c) {
      StuckForever(r, timeout, c, times);
    } else if Quiet(c) {
      Drains(r, timeout, c, times);
    } else if c.stack == [] && c.state in {Start, Auth} {
      EmptyStays(r, timeout, c, times);
    } else {
      var env := Env(r, timeout, times[0]);
      ConfirmPasses(env, c);
      AdvanceKeepsShape(env, c);
      Drains(r, timeout, Handle(r, timeout, Idle(times[0]), c), times[1..]);
    }
  }

  lemma {:induction false} EmptyStays(r: byte, timeout: nat, c: Client, times: seq<int>)
    requires c.stack == [] && c.state in {Start, Auth}
    requires c.slots.input.kind == CONFIRM && c.slots.output.kind == NONE
    ensures Rest(r, timeout, c, times) == c
    decreases |times|
  {
    if times != [] {
      AdvanceIsTable(Env(r, timeout, times[0]), c);
      EmptyStays(r, timeout, c, times[1..]);
    }
  }

  // ------------------------------------------------------------ a BYE in the slot

  lemma {:induction false} EndRests(r: byte, timeout: nat, c: Client, times: seq<int>)
    requires c.state == End
    ensures Rest(r, timeout, c, times) == c
    decreases |times|
  {
    if times != [] { EndRests(r, timeout, c, times[1..]); }
  }

  lemma SomeTimerFires(env: Env, c: Client)
    requires c.state in {Open, Join} && Shape(c) && c.stack != [] && AllExpired(env.timeout, env.now, c.stack)
    ensures c.state == Open ==>
              Any(Resendable(JOIN), env, c) || Any(Exhausted, env, c) || Any(Expired(MSG), env, c)
    ensures c.state == Join ==> Any(Expired(JOIN), env, c)
  {
    var e := c.stack[0];
    assert e in c.stack;
    assert Holds(Resendable(JOIN), e, env) || Holds(Exhausted, e, env) || Holds(Expired(MSG), e, env);
    assert c.state == Join ==> Holds(Expired(JOIN), e, env);
  }

  lemma TimerRow(env: Env, c: Client)
    requires c.state in {Open, Join} && Shape(c) && c.slots.input.kind == NONE && c.slots.output.kind == BYE
    requires c.stack != [] && AllExpired(env.timeout, env.now, c.stack)
    ensures var row := Table(env, c.slots, c); row.Go? && !row.op.Push? && row == Table(env, EMPTY, Cleared(c))
  {
    SomeTimerFires(env, c);
  }

  /** A timer that fires takes no notice of a waiting BYE, and clears it. */
  lemma TimerForgetsBye(env: Env, c: Client)
    requires c.state in {Open, Join} && Shape(c) && c.slots.input.kind == NONE && c.slots.output.kind == BYE
    requires c.stack != [] && AllExpired(env.timeout, env.now, c.stack)
    ensures Advance(env, c) == Advance(env, Cleared(c))
  {
    TimerRow(env, c);
    AdvanceIsTable(env, c);
    AdvanceIsTable(env, Cleared(c));
  }

  lemma ByeEnds(env: Env, c: Client)
    requires Shape(c) && c.slots.input.kind == NONE && c.slots.output.kind == BYE
    requires c.state in {Start, Auth} || (c.state == Open && c.stack == [])
    ensures Advance(env, c) == Cleared(c).(state := End)
  {
    AdvanceIsTable(env, c);
  }

  /** With a BYE waiting, the queue is emptied unless the client ends in `Auth` with the AUTH in it. */
  lemma DrainsDespiteBye(r: byte, timeout: nat, c: Client, times: seq<int>)
    requires Shape(c) && c.slots.input.kind == NONE && c.slots.output.kind == BYE && c.state != End
    requires Expiring(r, timeout, c, times) && |times| >= 2 * Weight(c.stack) + 2
    ensures Rest(r, timeout, c, times).stack == [] <==> c.state != Auth || c.stack == []
  {
    var env := Env(r, timeout, times[0]);
    if c.state in {Start, Auth} || (c.state == Open && c.stack == []) {
      ByeEnds(env, c);
      EndRests(r, timeout, Advance(env, c), times[1..]);
    } else {
      TimerForgetsBye(env, c);
      Drains(r, timeout, Cleared(c), times);
    }
  }

  /**
   * When draining works, for every client between iterations: enough expired idle
   * iterations empty the queue if and only if no unconsumed CONFIRM blocks the timers
   * and no BYE is about to end the client with an AUTH in the queue.
   */
  lemma DrainsExactly(r: byte, timeout: nat, c: Client, times: seq<int>)
    requires Shape(c) && SlotsRead(c) && c.state != End
    requires Expiring(r, timeout, c, times) && |times| >= 2 * Weight(c.stack) + 2
    ensures Rest(r, timeout, c, times).stack == [] <==>
            if c.slots.output.kind == BYE then c.state != Auth || c.stack == [] else !Stuck(c)
  {
    if c.slots.output.kind == BYE {
      DrainsDespiteBye(r, timeout, c, times);
    } else {
      DrainsUnlessStuck(r, timeout, c, times);
    }
  }

  /** The same for every run, continued without input at times further apart than the timeout. */
  lemma RunDrainsExactly(r: byte, timeout: nat, cfg: Config, run: seq<Event>, times: seq<int>)
    requires var c := After(r, timeout, cfg, run);
             IsRun(run) && c.state != End && Spaced(timeout, c.stack, times) && |times| >= 2 * Weight(c.stack) + 2
    ensures var c := After(r, timeout, cfg, run);
            After(r, timeout, cfg, run + IdleEvents(times)).stack == [] <==>
            if c.slots.output.kind == BYE then c.state != Auth || c.stack == [] else !Stuck(c)
  {
    var c := After(r, timeout, cfg, run);
    QueueShape(r, timeout, cfg, run);
    SlotsAlwaysRead(r, timeout, cfg, run);
    SpacedIsExpiring(r, timeout, c, times);
    RestIsRun(r, timeout, cfg, run, times);
    DrainsExactly(r, timeout, c, times);
  }
}
