/** Streaming a run to a consumer: callbacks push events into a queue or hand them straight to a consumer that waits, the
    end of the run wakes a waiting consumer, and the consumer takes events until the run is over. Between two suspension
    points the code runs without interruption, so each such piece is one step. */
module StreamHandoff {
  import opened Bytes

  /** Where the consumer is suspended: before it asks for the next event, in a promise that nobody has resolved, in one that
      was resolved with an event or with the end, waiting for the run's own promise, or finished. */
  datatype Consumer<E> = Idle | Awaiting | Resumed(event: Option<E>) | Ending | Ended | Threw

  datatype State<E> = State(queue: seq<E>, waiting: bool, done: bool, settled: Option<bool>, consumer: Consumer<E>,
                            pushed: seq<E>, yielded: seq<E>)

  function Start<E>(): State<E> {
    State([], false, false, None, Idle, [], [])
  }

  /** Push: a callback fires. Settle: the run resolves or rejects and takes its callbacks away. Finally: the handler that marks
      the stream as done. Pull: the caller asks for the next event. Wake: the resolved promise resumes the consumer. Close: the
      consumer gets the run's own result. */
  datatype Step<E> = Push(event: E) | Settle(ok: bool) | Finally | Pull | Wake | Close

  predicate Enabled<E>(s: State<E>, step: Step<E>) {
    match step
    case Push(_) => s.settled.None?
    case Settle(_) => s.settled.None?
    case Finally => s.settled.Some? && !s.done
    case Pull => s.consumer.Idle?
    case Wake => s.consumer.Resumed?
    case Close => s.consumer.Ending? && s.settled.Some?
  }

  function Next<E>(s: State<E>, step: Step<E>): State<E>
    requires Enabled(s, step)
  {
    match step
    case Push(event) =>
      var t := s.(pushed := s.pushed + [event]);
      if s.waiting then t.(waiting := false, consumer := Resumed(Some(event))) else t.(queue := s.queue + [event])
    case Settle(ok) =>
      s.(settled := Some(ok))
    case Finally =>
      var t := s.(done := true);
      if s.waiting then t.(waiting := false, consumer := Resumed(None)) else t
    case Pull =>
      if s.queue != [] then s.(queue := s.queue[1..], yielded := s.yielded + [s.queue[0]])
      else if s.done then s.(consumer := Ending)
      else s.(waiting := true, consumer := Awaiting)
    case Wake =>
      match s.consumer.event {
        case None => s.(consumer := Ending)
        case Some(event) => s.(consumer := Idle, yielded := s.yielded + [event])
      }
    case Close =>
      s.(consumer := if s.settled.value then Ended else Threw)
  }

  /** The event that is on its way to the consumer. */
  function InFlight<E>(s: State<E>): seq<E> {
    if s.consumer.Resumed? && s.consumer.event.Some? then [s.consumer.event.value] else []
  }

  predicate IsOver<E>(c: Consumer<E>) {
    c.Ending? || c.Ended? || c.Threw? || (c.Resumed? && c.event.None?)
  }

  ghost predicate Inv<E>(s: State<E>) {
    && s.yielded + InFlight(s) + s.queue == s.pushed
    && (s.waiting <==> s.consumer.Awaiting?)
    && (s.waiting ==> s.queue == [] && !s.done)
    && (s.done ==> s.settled.Some?)
    && (IsOver(s.consumer) ==> s.done && s.queue == [])
  }

  lemma {:induction false} StepInv<E>(s: State<E>, step: Step<E>)
    requires Inv(s) && Enabled(s, step)
    ensures Inv(Next(s, step))
  {
    var t := Next(s, step);
    match step
    case Push(event) =>
      if s.waiting {
        assert s.pushed == s.yielded + [] + [];
      } else {
        assert s.yielded + InFlight(s) + (s.queue + [event]) == s.pushed + [event];
      }
    case Pull =>
      if s.queue != [] {
        assert s.queue == [s.queue[0]] + s.queue[1..];
        assert s.yielded + [] + s.queue == s.yielded + [s.queue[0]] + [] + s.queue[1..];
      }
    case _ =>
  }

  ghost predicate IsRun<E>(states: seq<State<E>>, steps: seq<Step<E>>) {
    && |states| == |steps| + 1 && states[0] == Start()
    && forall i :: 0 <= i < |steps| ==> Enabled(states[i], steps[i]) && states[i + 1] == Next(states[i], steps[i])
  }

  lemma {:induction false} RunInv<E>(states: seq<State<E>>, steps: seq<Step<E>>, n: nat)
    requires IsRun(states, steps) && n < |states|
    ensures Inv(states[n])
  {
    if n == 0 {
    } else {
      RunInv(states, steps, n - 1);
      StepInv(states[n - 1], steps[n - 1]);
    }
  }

  /** Main result: in every interleaving the consumer has got the pushed events in order, but for those that are on their way
      or queued; a consumer waits only when it has got them all; and the stream ends, or throws the run's error, only when it
      has got them all and the run has settled. */
  lemma {:induction false} NothingLost<E>(states: seq<State<E>>, steps: seq<Step<E>>, n: nat)
    requires IsRun(states, steps) && n < |states|
    ensures var s := states[n];
            && s.yielded + InFlight(s) + s.queue == s.pushed
            && (s.consumer.Awaiting? ==> s.queue == [] && s.yielded == s.pushed && !s.done)
            && (s.consumer.Ended? || s.consumer.Threw? ==> s.yielded == s.pushed && s.settled.Some?)
  {
    RunInv(states, steps, n);
    var s := states[n];
    assert s.yielded + [] + [] == s.yielded;
  }

  // ---------- The end is reached ----------

  /** What the consumer still has to do once the run is done. */
  function StepsLeft<E>(s: State<E>): nat {
    match s.consumer
    case Ended => 0
    case Threw => 0
    case Ending => 1
    case Resumed(None) => 2
    case Idle => |s.queue| + 2
    case Resumed(Some(_)) => |s.queue| + 3
    case Awaiting => 0
  }

  /** The next thing a consumer does whose caller keeps asking. */
  function ConsumerStep<E>(s: State<E>): Step<E> {
    if s.consumer.Idle? then Pull else if s.consumer.Resumed? then Wake else Close
  }

  /** The state after `n` steps of the consumer. */
  function Drained<E>(s: State<E>, n: nat): State<E>
    decreases n
  {
    if n == 0 || !Enabled(s, ConsumerStep(s)) then s else Drained(Next(s, ConsumerStep(s)), n - 1)
  }

  /** Main result: once the run is done the consumer never waits again, and after a fixed number of its own steps the stream
      has ended, or thrown if the run failed, with every event delivered. */
  lemma {:induction false} EndReached<E>(s: State<E>)
    requires Inv(s) && s.done
    ensures var t := Drained(s, StepsLeft(s));
            t.consumer == (if s.consumer.Ended? || s.consumer.Threw? then s.consumer else if s.settled.value then Ended else Threw) &&
            t.yielded == s.pushed
    decreases StepsLeft(s)
  {
    if s.consumer.Ended? || s.consumer.Threw? {
      assert s.yielded + [] + [] == s.yielded;
    } else {
      var step := ConsumerStep(s);
      StepInv(s, step);
      EndReached(Next(s, step));
    }
  }

  // ---------- The closures ----------

  class Stream<E(0)> {
    var queue: seq<E>
    var waiting: bool
    var done: bool
    var settled: Option<bool>
    var consumer: Consumer<E>
    ghost var pushed: seq<E>
    ghost var yielded: seq<E>

    ghost function Get(): State<E>
      reads this
    {
      State(queue, waiting, done, settled, consumer, pushed, yielded)
    }

    constructor ()
      ensures Get() == Start()
    {
      queue, waiting, done, settled, consumer, pushed, yielded := [], false, false, None, Idle, [], [];
    }

    method PushEvent(event: E)
      requires Enabled(Get(), Push(event))
      modifies this
      ensures Get() == Next(old(Get()), Push(event))
    {
      pushed := pushed + [event];
      if waiting {
        waiting := false;
        consumer := Resumed(Some(event));
      } else {
        queue := queue + [event];
      }
    }

    method MarkDone()
      requires Enabled(Get(), Finally)
      modifies this
      ensures Get() == Next(old(Get()), Finally)
    {
      done := true;
      if waiting {
        waiting := false;
        consumer := Resumed(None);
      }
    }

    /** One round of the consumer's loop. */
    method PullEvent() returns (event: Option<E>)
      requires Enabled(Get(), Pull)
      modifies this
      ensures Get() == Next(old(Get()), Pull)
      ensures yielded == old(yielded) + if event.Some? then [event.value] else []
    {
      if |queue| > 0 {
        event := Some(queue[0]);
        yielded := yielded + [queue[0]];
        queue := queue[1..];
        return;
      }
      event := None;
      if done {
        consumer := Ending;
        return;
      }
      waiting := true;
      consumer := Awaiting;
    }
  }
}
