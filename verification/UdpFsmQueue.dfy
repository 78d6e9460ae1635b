/** What holds of the queue and the slots in every reachable state, and what erasing from the queue keeps. */
module UdpFsmQueue {
  import opened Bytes
  import opened Messages
  import opened UdpFsm
  import opened UdpFsmTable

  // ------------------------------------------------------------ queue operations

  lemma EraseStep(stack: seq<Entry>, t: Test, env: Env)
    requires stack != []
    ensures EraseIf(stack, t, env) ==
            (if Holds(t, stack[0], env) then [] else [stack[0]]) + EraseIf(stack[1..], t, env)
  {
    assert [] + EraseIf(stack[1..], t, env) == EraseIf(stack[1..], t, env);
  }

  /** The kept entries stood at these increasing positions. */
  predicate ArePositions(at: seq<nat>, kept: seq<Entry>, stack: seq<Entry>) {
    && |at| == |kept|
    && (forall i :: 0 <= i < |at| ==> at[i] < |stack| && kept[i] == stack[at[i]])
    && (forall i, j :: 0 <= i < j < |at| ==> at[i] < at[j])
  }

  lemma LaterPositions(stack: seq<Entry>, kept: seq<Entry>, rest: seq<nat>)
    requires stack != [] && ArePositions(rest, kept, stack[1..])
    ensures ArePositions(Shifted(rest), kept, stack)
  {
  }

  lemma FirstPosition(stack: seq<Entry>, kept: seq<Entry>, at: seq<nat>)
    requires stack != [] && ArePositions(at, kept, stack) && forall i :: 0 <= i < |at| ==> at[i] > 0
    ensures ArePositions([0] + at, [stack[0]] + kept, stack)
  {
  }

  /** `erase_if` keeps a subsequence. */
  lemma {:induction false} ErasePositions(stack: seq<Entry>, t: Test, env: Env) returns (at: seq<nat>)
    ensures ArePositions(at, EraseIf(stack, t, env), stack)
  {
    if stack == [] {
      at := [];
    } else {
      var rest := ErasePositions(stack[1..], t, env);
      LaterPositions(stack, EraseIf(stack[1..], t, env), rest);
      at := Shifted(rest);
      if !Holds(t, stack[0], env) {
        FirstPosition(stack, EraseIf(stack[1..], t, env), at);
        at := [0] + at;
      }
    }
  }

  function Shifted(at: seq<nat>): (r: seq<nat>)
    ensures |r| == |at| && forall i :: 0 <= i < |at| ==> r[i] == at[i] + 1
  {
    seq(|at|, i requires 0 <= i < |at| => at[i] + 1)
  }

  /** At most one JOIN, at the front, and otherwise MSG entries. */
  predicate JoinFirst(stack: seq<Entry>) {
    && (forall i :: 0 <= i < |stack| ==> stack[i].message.kind == MSG || stack[i].message.kind == JOIN)
    && (forall i :: 1 <= i < |stack| ==> stack[i].message.kind == MSG)
  }

  /** Strictly increasing message IDs, all of them below `n`. */
  predicate SortedBelow(stack: seq<Entry>, n: nat) {
    && (forall i :: 0 <= i < |stack| ==> stack[i].message.id < n)
    && (forall i, j :: 0 <= i < j < |stack| ==> stack[i].message.id < stack[j].message.id)
  }

  lemma KeptJoinFirst(at: seq<nat>, kept: seq<Entry>, stack: seq<Entry>)
    requires ArePositions(at, kept, stack) && JoinFirst(stack)
    ensures JoinFirst(kept)
  {
    forall i | 1 <= i < |kept| ensures kept[i].message.kind == MSG {
      assert at[0] < at[i] && kept[i] == stack[at[i]];
    }
  }

  lemma KeptSorted(at: seq<nat>, kept: seq<Entry>, stack: seq<Entry>, n: nat)
    requires ArePositions(at, kept, stack) && SortedBelow(stack, n)
    ensures SortedBelow(kept, n)
  {
    forall i, j | 0 <= i < j < |kept| ensures kept[i].message.id < kept[j].message.id {
      assert at[i] < at[j] && kept[i] == stack[at[i]] && kept[j] == stack[at[j]];
    }
  }

  lemma EraseKeepsOrder(stack: seq<Entry>, t: Test, env: Env, n: nat)
    ensures JoinFirst(stack) ==> JoinFirst(EraseIf(stack, t, env))
    ensures SortedBelow(stack, n) ==> SortedBelow(EraseIf(stack, t, env), n)
  {
    var at := ErasePositions(stack, t, env);
    if JoinFirst(stack) { KeptJoinFirst(at, EraseIf(stack, t, env), stack); }
    if SortedBelow(stack, n) { KeptSorted(at, EraseIf(stack, t, env), stack, n); }
  }

  lemma DropKeepsOrder(stack: seq<Entry>, k: nat, n: nat)
    requires k < |stack|
    ensures JoinFirst(stack) ==> JoinFirst(Dropped(stack, k))
    ensures SortedBelow(stack, n) ==> SortedBelow(Dropped(stack, k), n)
  {
    var d := Dropped(stack, k);
    assert forall i :: 0 <= i < |d| ==> d[i] == stack[if i < k then i else i + 1];
  }

  lemma DroppedTail(stack: seq<Entry>, k: nat)
    requires 0 < k < |stack|
    ensures Dropped(stack, k) == [stack[0]] + Dropped(stack[1..], k - 1)
  {
  }

  /** With distinct IDs, erasing by ID removes one entry and keeps all others in order. */
  lemma {:induction false} EraseIdRemovesOne(stack: seq<Entry>, k: nat, env: Env, n: nat)
    requires k < |stack| && SortedBelow(stack, n)
    ensures EraseIf(stack, WithId(stack[k].message.id), env) == Dropped(stack, k)
  {
    EraseStep(stack, WithId(stack[k].message.id), env);
    if k == 0 {
      NoOtherId(stack, n);
      EraseNothing(stack[1..], WithId(stack[0].message.id), env);
      assert Dropped(stack, 0) == [] + stack[1..];
    } else {
      assert stack[1..][k - 1] == stack[k] && stack[0].message.id < stack[k].message.id;
      EraseIdRemovesOne(stack[1..], k - 1, env, n);
      DroppedTail(stack, k);
    }
  }

  lemma NoOtherId(stack: seq<Entry>, n: nat)
    requires stack != [] && SortedBelow(stack, n)
    ensures forall e :: e in stack[1..] ==> e.message.id != stack[0].message.id
  {
    forall e | e in stack[1..] ensures stack[0].message.id < e.message.id {
      var i :| 0 <= i < |stack[1..]| && stack[1..][i] == e;
      assert stack[i + 1] == e;
    }
  }

  lemma EraseNothing(stack: seq<Entry>, t: Test, env: Env)
    requires forall e :: e in stack ==> !Holds(t, e, env)
    ensures EraseIf(stack, t, env) == stack
  {
  }

  // -------------------------------------------------------------------- the slots

  /** Between iterations the slots are empty, hold a CONFIRM nobody consumed, or hold the BYE of `exit`. */
  predicate SlotsRead(c: Client) {
    (c.slots.input.kind in {NONE, CONFIRM} && c.slots.output.kind == NONE) ||
    (c.slots.input.kind == NONE && c.slots.output.kind == BYE)
  }

  lemma AdvanceIsTable(env: Env, c: Client)
    ensures Advance(env, c) ==
            if c.stack == [] && c.slots.input.kind == NONE && c.slots.output.kind == NONE then c
            else
              match Table(env, c.slots, c)
              case Go(target, op, out) =>
                Cleared(Post(c.(stack := Queue(op, env, c.slots, c.stack)), out)).(state := target)
              case Refuse(clears) => if clears || SlotsPending(c.slots) then Cleared(c) else c
  {
    WiringIsTable(env, c.slots, c);
  }

  /**
   * Guards that fail may already have cleared the slots and others may not, yet after
   * the automaton has run the output slot is empty and the input slot is empty or a CONFIRM.
   */
  lemma SlotsAfterAdvance(env: Env, c: Client)
    ensures var s := Advance(env, c).slots; s.output.kind == NONE && s.input.kind in {NONE, CONFIRM}
  {
    AdvanceIsTable(env, c);
  }

  lemma {:induction false} SlotsAlwaysRead(r: byte, timeout: nat, cfg: Config, run: seq<Event>)
    requires IsRun(run)
    ensures SlotsRead(After(r, timeout, cfg, run))
  {
    if run != [] {
      var before, ev := run[..|run| - 1], run[|run| - 1];
      var c := After(r, timeout, cfg, before);
      SlotsAlwaysRead(r, timeout, cfg, before);
      if c.state != End && ev.Iteration? {
        SlotsAfterAdvance(Env(r, timeout, ev.now), TakeDatagram(ev.datagram, TakeLine(ev.line, c)));
      }
    }
  }

  // -------------------------------------------------------------- the queue shapes

  predicate OnlyAuth(stack: seq<Entry>) { |stack| <= 1 && forall e :: e in stack ==> e.message.kind == AUTH }

  predicate Shape(c: Client) {
    match c.state
    case Start => c.stack == []
    case Auth => OnlyAuth(c.stack)
    case Open => JoinFirst(c.stack)
    case Join => JoinFirst(c.stack) && c.stack != [] && c.stack[0].message.kind == JOIN
    case End => true
  }

  /** What a row does to the queue when it goes to `target`. */
  predicate KeepsShape(env: Env, c: Client) {
    var row := Table(env, c.slots, c);
    row.Go? ==> Shape(c.(state := row.target, stack := Queue(row.op, env, c.slots, c.stack)))
  }

  lemma OpKeepsOnlyAuth(op: QueueOp, env: Env, m: Slots, stack: seq<Entry>)
    requires OnlyAuth(stack) && (op.Push? ==> stack == [] && m.output.kind == AUTH)
    ensures OnlyAuth(Queue(op, env, m, stack))
    ensures op.Drop? && FindFirst(stack, op.t, env) < |stack| ==> Queue(op, env, m, stack) == []
  {
  }

  /** What the table does to the queue in `Auth`. */
  lemma AuthOps(env: Env, c: Client)
    requires c.state == Auth
    ensures var row := Table(env, c.slots, c);
            row.Go? ==>
              && (row.op.Push? ==> c.stack == [] && c.slots.output.kind == AUTH)
              && (row.target == Open ==> row.op.Drop? && FindFirst(c.stack, row.op.t, env) < |c.stack|)
              && row.target in {Auth, Open, End}
  {
  }

  lemma AuthShape(env: Env, c: Client)
    requires c.state == Auth && Shape(c)
    ensures KeepsShape(env, c)
    ensures var row := Table(env, c.slots, c);
            row.Go? && row.target == Open ==> Queue(row.op, env, c.slots, c.stack) == []
  {
    AuthOps(env, c);
    var row := Table(env, c.slots, c);
    if row.Go? { OpKeepsOnlyAuth(row.op, env, c.slots, c.stack); }
  }

  lemma OpKeepsJoinFirst(op: QueueOp, env: Env, m: Slots, stack: seq<Entry>)
    requires JoinFirst(stack)
    requires op.Push? ==> m.output.kind == MSG || (m.output.kind == JOIN && stack == [])
    ensures JoinFirst(Queue(op, env, m, stack))
  {
    match op
    case Erase(t) => EraseKeepsOrder(stack, t, env, 0);
    case Drop(t) =>
      var k := FindFirst(stack, t, env);
      if k < |stack| { DropKeepsOrder(stack, k, 0); }
    case _ =>
  }

  lemma OpenShape(env: Env, c: Client)
    requires c.state == Open && Shape(c)
    ensures KeepsShape(env, c)
  {
    var row := Table(env, c.slots, c);
    if row.Go? { OpKeepsJoinFirst(row.op, env, c.slots, c.stack); }
  }

  lemma JoinShape(env: Env, c: Client)
    requires c.state == Join && Shape(c)
    ensures KeepsShape(env, c)
  {
    var row := Table(env, c.slots, c);
    if row.Go? { OpKeepsJoinFirst(row.op, env, c.slots, c.stack); }
  }

  lemma AdvanceKeepsShape(env: Env, c: Client)
    requires Shape(c)
    ensures Shape(Advance(env, c))
    ensures c.state == Auth && Advance(env, c).state == Open ==> Advance(env, c).stack == []
  {
    AdvanceIsTable(env, c);
    match c.state
    case Start => assert KeepsShape(env, c);
    case Auth => AuthShape(env, c);
    case Open => OpenShape(env, c);
    case Join => JoinShape(env, c);
    case End =>
  }

  lemma HandleKeepsShape(r: byte, timeout: nat, ev: Event, c: Client)
    requires Shape(c)
    ensures Shape(Handle(r, timeout, ev, c))
  {
    if c.state != End && ev.Iteration? {
      AdvanceKeepsShape(Env(r, timeout, ev.now), TakeDatagram(ev.datagram, TakeLine(ev.line, c)));
    }
  }

  /** The queue shape of every state, in every run. */
  lemma {:induction false} QueueShape(r: byte, timeout: nat, cfg: Config, run: seq<Event>)
    ensures Shape(After(r, timeout, cfg, run))
  {
    if run != [] {
      QueueShape(r, timeout, cfg, run[..|run| - 1]);
      HandleKeepsShape(r, timeout, run[|run| - 1], After(r, timeout, cfg, run[..|run| - 1]));
    }
  }
}
