/**
 The live board's refresh loop (board_stream.go): a drain goroutine signals a one-slot channel, a select loop
 pushes at most once per tick. A state machine over the steps of both and a ticker, in any interleaving.
 */
module BoardStream {

  /** The board on the client: the items as of some number of published events, or the error board a
      failed list call renders, which has no items. */
  datatype Screen = Items(asOf: nat) | ErrorBoard

  /** Where the select loop stands: waiting in select; inside push() before its list call; inside
      push() after it, rendering and writing; or returned. */
  datatype Loop = Waiting | Starting | Writing(seen: nat) | Returned

  /** published: relevant events published upstream since the subscription; the change behind an event
                 is stored before the event is published
      drained:   how many of them the drain goroutine has signalled
      alive:     the drain goroutine is still reading; it stops for good when the upstream body ends
                 or a line outgrows its buffer, and the loop is not told
      dirty:     the one-slot channel is full
      ticker:    a tick is waiting in the ticker's own slot
      covered:   how many events had been published when the latest push listed the items
      listed:    that list call succeeded
      screen:    what the client last received
      pushes, ticks: completed choices of the loop, not counting the catch-up frame */
  datatype State = State(published: nat, drained: nat, alive: bool, dirty: bool, pending: bool, ticker: bool, loop: Loop,
                         covered: nat, listed: bool, screen: Screen, pushes: nat, ticks: nat)

  datatype Step =
    | Publish
    | Drain
    | DrainStops
    | TickFires
    | TakeDirty
    | TakeTick
    | List(ok: bool)
    | Write
    | Return

  /** The catch-up frame has been written and the drain goroutine starts; events may already have been
      published, before or after that frame listed the items. */
  predicate Init(s: State) {
    && s.drained == 0 && s.alive && !s.dirty && !s.pending && !s.ticker && s.loop == Waiting
    && s.covered <= s.published && s.screen == Drawn(s.listed, s.covered) && s.pushes == s.ticks == 0
  }

  /** What a push draws. */
  function Drawn(listed: bool, seen: nat): Screen {
    if listed then Items(seen) else ErrorBoard
  }

  predicate Enabled(s: State, step: Step) {
    match step
    case Publish => true
    case Drain => s.alive && s.drained < s.published
    case DrainStops => s.alive
    case TickFires => true
    case TakeDirty => s.loop == Waiting && s.dirty
    case TakeTick => s.loop == Waiting && s.ticker
    case List(_) => s.loop == Starting
    case Write => s.loop.Writing?
    case Return => s.loop != Returned
  }

  function Do(s: State, step: Step): State {
    match step
    case Publish => s.(published := s.published + 1)
    // a non-blocking send: a full slot stays full
    case Drain => s.(drained := s.drained + 1, dirty := true)
    case DrainStops => s.(alive := false)
    case TickFires => s.(ticker := true)
    case TakeDirty => s.(dirty := false, pending := true)
    case TakeTick =>
      if s.pending then s.(ticker := false, ticks := s.ticks + 1, pending := false, pushes := s.pushes + 1, loop := Starting)
      else s.(ticker := false, ticks := s.ticks + 1)
    case List(ok) => s.(covered := s.published, listed := ok, loop := Writing(s.published))
    case Write =>
      if s.loop.Writing? then s.(loop := Waiting, screen := Drawn(s.listed, s.loop.seen)) else s
    case Return => s.(loop := Returned)
  }

  ghost predicate CanRun(s: State, steps: seq<Step>)
    decreases steps
  {
    steps == [] || (Enabled(s, steps[0]) && CanRun(Do(s, steps[0]), steps[1..]))
  }

  function Run(s: State, steps: seq<Step>): State
    decreases steps
  {
    if steps == [] then s else Run(Do(s, steps[0]), steps[1..])
  }

  // ----- what every interleaving keeps -----

  /** No refresh is lost, and nothing is counted before it happened. */
  ghost predicate Covers(s: State) {
    && s.drained <= s.published && s.covered <= s.published
    && (s.drained > s.covered ==> s.dirty || s.pending || s.loop == Starting || s.loop == Returned)
  }

  /** The client is never ahead, and has the latest list call's board once its frame is out. */
  ghost predicate Shows(s: State) {
    && (s.screen.Items? ==> s.screen.asOf <= s.covered)
    && (s.loop.Writing? ==> s.loop.seen == s.covered)
    && (s.loop == Waiting ==> s.screen == Drawn(s.listed, s.covered))
  }

  /** One push per tick at most, and none without a signal of its own. */
  ghost predicate Paced(s: State) {
    && s.pushes <= s.ticks
    && s.pushes + (if s.pending then 1 else 0) + (if s.dirty then 1 else 0) <= s.drained
  }

  ghost predicate Inv(s: State) {
    Covers(s) && Shows(s) && Paced(s)
  }

  lemma StepKeepsInv(s: State, step: Step)
    requires Inv(s) && Enabled(s, step)
    ensures Inv(Do(s, step))
  {
    assert Covers(Do(s, step)) by {
      hide Shows, Paced;
    }
    assert Paced(Do(s, step)) by {
      hide Shows, Covers;
    }
    assert Shows(Do(s, step)) by {
      hide Paced;
    }
  }

  lemma {:induction false} RunKeepsInv(s: State, steps: seq<Step>)
    requires Inv(s) && CanRun(s, steps)
    ensures Inv(Run(s, steps))
    decreases steps
  {
    if steps != [] {
      StepKeepsInv(s, steps[0]);
      RunKeepsInv(Do(s, steps[0]), steps[1..]);
    }
  }

  lemma InitInv(s: State)
    requires Init(s)
    ensures Inv(s)
  {
  }

  /** No refresh is lost, in any interleaving of publishing, draining, ticking and pushing: an event
      that was signalled and that no push has listed since is still queued, in the slot, in `pending`
      or in a push about to list. Pushes never outnumber ticks or signals. */
  lemma NoLostRefresh(s: State, steps: seq<Step>)
    requires Init(s) && CanRun(s, steps)
    ensures var t := Run(s, steps);
            && (t.loop != Returned && t.drained > t.covered ==> t.dirty || t.pending || t.loop == Starting)
            && t.pushes <= t.ticks && t.pushes <= t.drained
  {
    InitInv(s);
    RunKeepsInv(s, steps);
  }

  /** Nothing left to do: every published event is signalled and the loop idles with an empty slot. */
  predicate Quiet(s: State) {
    s.loop == Waiting && !s.dirty && !s.pending && s.drained == s.published
  }

  /** When the stream falls quiet the client shows every published change if and only if the last list
      call succeeded; otherwise it shows an error board, and only another event brings the items back. */
  lemma QuietIsFresh(s: State, steps: seq<Step>)
    requires Init(s) && CanRun(s, steps) && Quiet(Run(s, steps))
    ensures var t := Run(s, steps);
            && t.covered == t.published
            && (t.screen == Items(t.published) <==> t.listed)
            && (t.screen == ErrorBoard <==> !t.listed)
  {
    InitInv(s);
    RunKeepsInv(s, steps);
  }

  /** A failed list call is not retried: after it the stream can be quiet on an error board. */
  lemma FailedListIsNotRetried() returns (s: State, steps: seq<Step>)
    ensures Init(s) && CanRun(s, steps)
    ensures Quiet(Run(s, steps)) && Run(s, steps).screen == ErrorBoard
  {
    s := State(0, 0, true, false, false, false, Waiting, 0, true, Items(0), 0, 0);
    steps := [Publish, Drain, TakeDirty, TickFires, TakeTick, List(false), Write];
    var s1 := Do(s, Publish);
    var s2 := Do(s1, Drain);
    var s3 := Do(s2, TakeDirty);
    var s4 := Do(s3, TickFires);
    var s5 := Do(s4, TakeTick);
    var s6 := Do(s5, List(false));
    var s7 := Do(s6, Write);
    RunStep(s, steps);
    RunStep(s1, steps[1..]);
    RunStep(s2, steps[2..]);
    RunStep(s3, steps[3..]);
    RunStep(s4, steps[4..]);
    RunStep(s5, steps[5..]);
    RunStep(s6, steps[6..]);
    assert steps[7..] == [];
  }

  /** Nothing but another event ends that: from a quiet stream on, the screen stays what it is. */
  lemma {:induction false} QuietStays(s: State, steps: seq<Step>)
    requires s.loop == Waiting || s.loop == Returned
    requires !s.dirty && !s.pending && s.drained == s.published
    requires CanRun(s, steps) && Publish !in steps
    ensures Run(s, steps).screen == s.screen
    decreases |steps|
  {
    if steps != [] {
      assert steps[0] in steps && forall x | x in steps[1..] :: x in steps;
      QuietStays(Do(s, steps[0]), steps[1..]);
    }
  }

  /** When the upstream body has ended, or a line has outgrown the reader's buffer, the reader is gone and
      the loop is not told. What is queued still goes out; after that no change ever reaches the client,
      however many events are published, until the connection itself ends. */
  lemma {:induction false} DeadReaderFreezes(s: State, steps: seq<Step>)
    requires s.loop == Waiting || s.loop == Returned
    requires !s.alive && !s.dirty && !s.pending && CanRun(s, steps)
    ensures Run(s, steps).screen == s.screen
    decreases |steps|
  {
    if steps != [] {
      DeadReaderFreezes(Do(s, steps[0]), steps[1..]);
    }
  }

  /** And it happens: an event after the reader's end leaves the screen one behind, with nothing left that
      could bring it up to date. */
  lemma DeadReaderFallsBehind() returns (s: State, steps: seq<Step>)
    ensures Init(s) && CanRun(s, steps)
    ensures var t := Run(s, steps);
            && t.published == 1 && t.screen == Items(0) && Left(t) > 0
            && forall w :: Enabled(t.(ticker := true), w) ==> !Work(t.(ticker := true), w)
  {
    s := State(0, 0, true, false, false, false, Waiting, 0, true, Items(0), 0, 0);
    steps := [DrainStops, Publish];
    RunStep(s, steps);
    RunStep(Do(s, DrainStops), steps[1..]);
    assert steps[2..] == [];
  }

  lemma RunStep(s: State, steps: seq<Step>)
    requires steps != []
    ensures Run(s, steps) == Run(Do(s, steps[0]), steps[1..])
    ensures CanRun(s, steps) <==> Enabled(s, steps[0]) && CanRun(Do(s, steps[0]), steps[1..])
    ensures |steps| > 1 ==> steps[1..][1..] == steps[2..]
  {
  }

  // ----- it does settle -----

  /** A step that works towards the client: everything but publishing, ticking, stopping and returning. An idle
      tick is not work. */
  predicate Work(s: State, step: Step) {
    step == Drain || step == TakeDirty || (step == TakeTick && s.pending) || step.List? || step == Write
  }

  /** How much work is left. */
  function Left(s: State): int {
    10 * (s.published - s.drained) + (if s.dirty then 5 else 0) + (if s.pending then 3 else 0) +
    (match s.loop case Starting => 2 case Writing(_) => 1 case _ => 0)
  }

  /** Until the stream is quiet some working step is possible, at the latest after one tick, exactly as long
      as the reader lives or something is still queued or being pushed. Each one brings the stream nearer,
      and nothing but a new event or its end takes it further away. So while the reader lives every burst
      of events is on the client after a bounded number of working steps. */
  lemma Settles(s: State, step: Step)
    requires Inv(s) && s.loop != Returned
    ensures Left(s) >= 0 && (Left(s) == 0 <==> Quiet(s))
    ensures Left(s) > 0 ==>
              ((exists w :: w != List(false) && Work(s.(ticker := true), w) && Enabled(s.(ticker := true), w)) <==>
               s.alive || s.dirty || s.pending || s.loop != Waiting)
    ensures Enabled(s, step) && Work(s, step) ==> Left(Do(s, step)) < Left(s)
    ensures Enabled(s, step) && !Work(s, step) && step != Publish && step != Return ==> Left(Do(s, step)) == Left(s)
  {
    var t := s.(ticker := true);
    if s.loop == Starting {
      assert Work(t, List(true)) && Enabled(t, List(true));
    } else if s.loop.Writing? {
      assert Work(t, Write) && Enabled(t, Write);
    } else if s.dirty {
      assert Work(t, TakeDirty) && Enabled(t, TakeDirty);
    } else if s.pending {
      assert Work(t, TakeTick) && Enabled(t, TakeTick);
    } else if s.alive && s.drained < s.published {
      assert Work(t, Drain) && Enabled(t, Drain);
    }
  }

  // ----- the select loop itself -----

  /** What one round of the select receives: a signal, or a tick with the clock readings when it is
      taken and when its write, if any, is done. */
  datatype Received = Signal | Tick(now: int, done: int)

  datatype Action = Nothing | Push | Heartbeat

  /** The action the loop owes to the i-th thing it receives: to a tick, a push if the thing before it
      was a signal, else a heartbeat if nothing was written for `heartbeat`. */
  ghost function Owed(start: int, heartbeat: int, rs: seq<Received>, i: nat): Action
    requires i < |rs|
    decreases i, 1
  {
    if rs[i] == Signal then Nothing
    else if i > 0 && rs[i - 1] == Signal then Push
    else if rs[i].now - LastWrite(start, heartbeat, rs, i) >= heartbeat then Heartbeat
    else Nothing
  }

  /** When something was last written before the i-th receive. */
  ghost function LastWrite(start: int, heartbeat: int, rs: seq<Received>, i: nat): int
    requires i <= |rs|
    decreases i, 0
  {
    if i == 0 then start
    else if rs[i - 1].Tick? && Owed(start, heartbeat, rs, i - 1) != Nothing then rs[i - 1].done
    else LastWrite(start, heartbeat, rs, i - 1)
  }

  /** The body of boardStream's select loop over what it receives, in order. */
  method SelectLoop(start: int, heartbeat: int, rs: seq<Received>) returns (actions: seq<Action>)
    ensures |actions| == |rs|
    ensures forall i: nat | i < |rs| :: actions[i] == Owed(start, heartbeat, rs, i)
  {
    var lastWrite, pending := start, false;
    actions := [];
    for i := 0 to |rs|
      invariant |actions| == i
      invariant forall k: nat | k < i :: actions[k] == Owed(start, heartbeat, rs, k)
      invariant pending == (i > 0 && rs[i - 1] == Signal)
      invariant lastWrite == LastWrite(start, heartbeat, rs, i)
    {
      var action := Nothing;
      if rs[i] == Signal {
        pending := true;
      } else if pending {
        pending := false;
        action := Push;
        lastWrite := rs[i].done;
      } else if rs[i].now - lastWrite >= heartbeat {
        action := Heartbeat;
        lastWrite := rs[i].done;
      }
      actions := actions + [action];
    }
  }

  /** The last write before the i-th receive is the last action owed before it, if there is one. */
  lemma {:induction false} LastWriteIs(start: int, heartbeat: int, rs: seq<Received>, i: nat) returns (k: int)
    requires i <= |rs|
    ensures -1 <= k < i
    ensures LastWrite(start, heartbeat, rs, i) == if k < 0 || rs[k] == Signal then start else rs[k].done
    ensures k >= 0 ==> rs[k].Tick? && Owed(start, heartbeat, rs, k) != Nothing
    ensures forall j: nat | k < j < i :: Owed(start, heartbeat, rs, j) == Nothing
    decreases i
  {
    if i == 0 {
      k := -1;
    } else if Owed(start, heartbeat, rs, i - 1) != Nothing {
      k := i - 1;
    } else {
      k := LastWriteIs(start, heartbeat, rs, i - 1);
    }
  }

  /** The connection is never silent for longer than a heartbeat and a tick, and never beats without need: a
      tick that leaves the loop without writing comes less than `heartbeat` after the start or after some
      write; a tick that writes a heartbeat comes at least that long after the last write before it. */
  lemma NeverSilent(start: int, heartbeat: int, rs: seq<Received>, actions: seq<Action>, i: nat)
    requires |actions| == |rs| && forall j: nat | j < |rs| :: actions[j] == Owed(start, heartbeat, rs, j)
    requires i < |rs| && rs[i].Tick?
    ensures actions[i] == Nothing ==>
              rs[i].now - start < heartbeat ||
              exists k: nat :: k < i && actions[k] != Nothing && rs[k].Tick? && rs[i].now - rs[k].done < heartbeat
    ensures actions[i] == Heartbeat ==>
              forall k: nat | k < i && actions[k] != Nothing && (forall j | k < j < i :: actions[j] == Nothing) ::
                rs[k].Tick? && rs[i].now - rs[k].done >= heartbeat
    ensures actions[i] == Heartbeat && (forall k | 0 <= k < i :: actions[k] == Nothing) ==> rs[i].now - start >= heartbeat
  {
    hide LastWrite;
    var k := LastWriteIs(start, heartbeat, rs, i);
    assert k >= 0 ==> actions[k] != Nothing;
    forall m: nat | m < i && actions[m] != Nothing && (forall j | m < j < i :: actions[j] == Nothing)
      ensures m == k
    {
    }
  }

  // ----- the loop makes the protocol's steps -----

  /** What the select receives in a run of the protocol, in order. */
  function Taken(steps: seq<Step>): seq<Step> {
    if steps == [] then []
    else
      var n := |steps| - 1;
      if steps[n] == TakeDirty || steps[n] == TakeTick then Taken(steps[..n]) + [steps[n]] else Taken(steps[..n])
  }

  ghost predicate Receives(rs: seq<Received>, taken: seq<Step>) {
    |rs| == |taken| && forall i :: 0 <= i < |rs| ==> (rs[i] == Signal <==> taken[i] == TakeDirty)
  }

  /** A tick right after a signal. */
  predicate PushDue(rs: seq<Received>, i: nat)
    requires i < |rs|
  {
    rs[i].Tick? && i > 0 && rs[i - 1] == Signal
  }

  ghost predicate PushesAre(rs: seq<Received>, actions: seq<Action>) {
    |actions| == |rs| && forall i: nat :: i < |rs| ==> (actions[i] == Push <==> PushDue(rs, i))
  }

  lemma {:induction false} RunLast(s: State, steps: seq<Step>)
    requires steps != []
    ensures var n := |steps| - 1;
            CanRun(s, steps) <==> CanRun(s, steps[..n]) && Enabled(Run(s, steps[..n]), steps[n])
    ensures Run(s, steps) == Do(Run(s, steps[..|steps| - 1]), steps[|steps| - 1])
    decreases |steps|
  {
    hide Do, Enabled;
    var n := |steps| - 1;
    if n > 0 {
      RunLast(Do(s, steps[0]), steps[1..]);
      assert steps[1..][..n - 1] == steps[..n][1..];
    }
  }

  function Pushes(actions: seq<Action>): nat {
    multiset(actions)[Push]
  }

  lemma {:induction false} PendingIsLastSignal(s: State, steps: seq<Step>, rs: seq<Received>, actions: seq<Action>)
    requires Init(s) && CanRun(s, steps) && Receives(rs, Taken(steps)) && PushesAre(rs, actions)
    ensures var t := Run(s, steps);
            t.pushes == Pushes(actions) && t.pending == (rs != [] && rs[|rs| - 1] == Signal)
  {
    if steps != [] {
      var n := |steps| - 1;
      var step := steps[n];
      RunLast(s, steps);
      StepMeans(Run(s, steps[..n]), step);
      hide Run, CanRun, Do, Enabled, PushesAre, Receives, Init, Pushes;
      if step == TakeDirty || step == TakeTick {
        assert Taken(steps) == Taken(steps[..n]) + [step];
        hide Taken;
        ReceivesOneMore(rs, Taken(steps[..n]), step, actions);
        var m := |rs| - 1;
        PendingIsLastSignal(s, steps[..n], rs[..m], actions[..m]);
      } else {
        assert Taken(steps) == Taken(steps[..n]);
        hide Taken;
        PendingIsLastSignal(s, steps[..n], rs, actions);
      }
    }
  }

  /** What a step does to `pending` and the pushes. */
  lemma StepMeans(s: State, step: Step)
    requires Enabled(s, step)
    ensures Do(s, step).pending == if step == TakeDirty then true else if step == TakeTick then false else s.pending
    ensures Do(s, step).pushes == s.pushes + if step == TakeTick && s.pending then 1 else 0
  {
  }

  lemma ReceivesOneMore(rs: seq<Received>, taken: seq<Step>, step: Step, actions: seq<Action>)
    requires Receives(rs, taken + [step]) && PushesAre(rs, actions)
    ensures var m := |rs| - 1;
            && m >= 0 && Receives(rs[..m], taken) && PushesAre(rs[..m], actions[..m])
            && (rs[m] == Signal <==> step == TakeDirty)
            && (actions[m] == Push <==> rs[m].Tick? && m > 0 && rs[..m][m - 1] == Signal)
            && Pushes(actions) == Pushes(actions[..m]) + if actions[m] == Push then 1 else 0
  {
    var m := |rs| - 1;
    assert (taken + [step])[m] == step;
    forall i | 0 <= i < m
      ensures rs[..m][i] == Signal <==> taken[i] == TakeDirty
    {
      assert (taken + [step])[i] == taken[i];
    }
    forall i: nat | i < m
      ensures actions[..m][i] == Push <==> PushDue(rs[..m], i)
    {
      assert actions[i] == Push <==> PushDue(rs, i);
    }
    assert actions[m] == Push <==> PushDue(rs, m);
    CountLast(actions);
  }

  lemma CountLast(actions: seq<Action>)
    requires actions != []
    ensures var m := |actions| - 1;
            Pushes(actions) == Pushes(actions[..m]) + if actions[m] == Push then 1 else 0
  {
    var front, last := actions[..|actions| - 1], actions[|actions| - 1];
    assert actions == front + [last];
    assert multiset(front + [last]) == multiset(front) + multiset{last};
  }

  /** The select loop and the protocol agree: in any run, over whatever the loop received in it and with
      any clock readings, the loop's answer is as many pushes as the protocol started. */
  lemma LoopMakesTheSteps(s: State, steps: seq<Step>, start: int, heartbeat: int, rs: seq<Received>, actions: seq<Action>)
    requires Init(s) && CanRun(s, steps) && Receives(rs, Taken(steps))
    requires |actions| == |rs| && forall i: nat | i < |rs| :: actions[i] == Owed(start, heartbeat, rs, i)
    ensures Run(s, steps).pushes == Pushes(actions)
  {
    PendingIsLastSignal(s, steps, rs, actions);
  }
}
