/** Where the result of a request comes from, in every run of the table of pending requests. */
module PendingOrigins {
  import opened Bytes
  import opened PendingRequests

  /** The step has been taken before state `n`. */
  predicate Took(steps: seq<Step>, n: nat, step: Step) {
    exists i | 0 <= i < n && i < |steps| :: steps[i] == step
  }

  /** This very response has come in. */
  predicate CameIn(steps: seq<Step>, n: nat, response: Response) {
    exists i | 0 <= i < n && i < |steps| :: steps[i].Take? && steps[i].response == response
  }

  /** The table was shut down while the request was in it. */
  predicate ShutDown(states: seq<State>, steps: seq<Step>, n: nat, r: nat) {
    exists i | 0 <= i < n && i < |steps| && i < |states| :: steps[i].CancelAll? && InTable(states[i], r)
  }

  predicate ResultOk(states: seq<State>, steps: seq<Step>, n: nat, r: nat, result: Result) {
    match result
    case Received(response) => CameIn(steps, n, response)
    case RequestCancelled => ShutDown(states, steps, n, r)
    case TimedOut => Took(steps, n, Expire(r))
    case WriteFailed => Took(steps, n, Write(r, false))
  }

  predicate RequestOk(states: seq<State>, steps: seq<Step>, n: nat, r: nat)
    requires n < |states| && r < |states[n].requests|
  {
    var q := states[n].requests[r];
    && (q.channel.Some? && q.channel.value.buffer.Some? ==> CameIn(steps, n, q.channel.value.buffer.value))
    && (q.channel.Some? && q.channel.value.closes > 0 ==> ShutDown(states, steps, n, r))
    && (q.phase.Finished? ==> ResultOk(states, steps, n, r, q.phase.result))
  }

  predicate DeliveriesOk(s: State, steps: seq<Step>, n: nat) {
    forall token :: token in s.deliveries ==> CameIn(steps, n, s.deliveries[token].response)
  }

  ghost predicate Origins(states: seq<State>, steps: seq<Step>, n: nat)
    requires n < |states|
  {
    && DeliveriesOk(states[n], steps, n)
    && (forall r :: 0 <= r < |states[n].requests| ==> RequestOk(states, steps, n, r))
  }

  /** What has happened has happened. */
  lemma {:induction false} Later(states: seq<State>, steps: seq<Step>, n: nat)
    ensures forall step :: Took(steps, n, step) ==> Took(steps, n + 1, step)
    ensures forall response :: CameIn(steps, n, response) ==> CameIn(steps, n + 1, response)
    ensures forall r: nat :: ShutDown(states, steps, n, r) ==> ShutDown(states, steps, n + 1, r)
    ensures n < |steps| ==> Took(steps, n + 1, steps[n])
    ensures n < |steps| && steps[n].Take? ==> CameIn(steps, n + 1, steps[n].response)
    ensures n < |steps| && n < |states| && steps[n].CancelAll? ==>
              forall r: nat :: InTable(states[n], r) ==> ShutDown(states, steps, n + 1, r)
  {}

  lemma {:induction false} OneOrigin(states: seq<State>, steps: seq<Step>, n: nat, r: nat)
    requires IsRun(states, steps) && n < |steps| && Origins(states, steps, n) && r < |states[n + 1].requests|
    ensures RequestOk(states, steps, n + 1, r)
  {
    assert states[n + 1] == Next(states[n], steps[n]);
    match steps[n]
    case Deliver(_) => ChannelOrigin(states, steps, n, r);
    case CancelAll => ChannelOrigin(states, steps, n, r);
    case _ => PhaseOrigin(states, steps, n, r);
  }

  lemma {:induction false} ChannelOrigin(states: seq<State>, steps: seq<Step>, n: nat, r: nat)
    requires n + 1 < |states| && n < |steps| && Enabled(states[n], steps[n]) && states[n + 1] == Next(states[n], steps[n])
    requires Origins(states, steps, n) && r < |states[n + 1].requests| && (steps[n].Deliver? || steps[n].CancelAll?)
    ensures RequestOk(states, steps, n + 1, r)
  {
    Later(states, steps, n);
    assert RequestOk(states, steps, n, r);
  }

  lemma {:induction false} PhaseOrigin(states: seq<State>, steps: seq<Step>, n: nat, r: nat)
    requires n + 1 < |states| && n < |steps| && Enabled(states[n], steps[n]) && states[n + 1] == Next(states[n], steps[n])
    requires Origins(states, steps, n) && r < |states[n + 1].requests| && !steps[n].Deliver? && !steps[n].CancelAll?
    ensures RequestOk(states, steps, n + 1, r)
  {
    Later(states, steps, n);
    assert r < |states[n].requests| ==> RequestOk(states, steps, n, r);
  }

  /** Main result: in every run a request that got a response got one that had come in, unchanged; one that was cancelled was in
      the table at a shutdown; one that timed out had expired, and one whose write failed had not been written. */
  lemma {:induction false} RunOrigins(states: seq<State>, steps: seq<Step>, n: nat)
    requires IsRun(states, steps) && n < |states|
    ensures Origins(states, steps, n)
  {
    if n == 0 {
    } else {
      RunOrigins(states, steps, n - 1);
      Later(states, steps, n - 1);
      forall r | 0 <= r < |states[n].requests|
        ensures RequestOk(states, steps, n, r)
      {
        OneOrigin(states, steps, n - 1, r);
      }
      DeliveryOrigins(states, steps, n - 1);
    }
  }

  lemma {:induction false} DeliveryOrigins(states: seq<State>, steps: seq<Step>, n: nat)
    requires IsRun(states, steps) && n < |steps| && Origins(states, steps, n)
    ensures DeliveriesOk(states[n + 1], steps, n + 1)
  {
    Later(states, steps, n);
    assert states[n + 1] == Next(states[n], steps[n]);
  }

  // ---------- The other way round ----------

  /** A request that has a result keeps it. */
  lemma {:induction false} ResultStays(s: State, step: Step, r: nat)
    requires Enabled(s, step) && r < |s.requests| && s.requests[r].phase.Finished?
    ensures r < |Next(s, step).requests| && Next(s, step).requests[r].phase == s.requests[r].phase
  {}

  /** A response to a request that waits in the table reaches it, as it came. */
  lemma {:induction false} Answered(s: State, token: nat, response: Response, r: nat)
    requires Inv(s) && Waits(s, r) && InTable(s, r) && token !in s.deliveries && response.id == Some(s.requests[r].id)
    ensures var a := Next(s, Take(token, response));
            && Enabled(s, Take(token, response)) && Enabled(a, Deliver(token))
            && var b := Next(a, Deliver(token));
               && Enabled(b, Receive(r))
               && Next(b, Receive(r)).requests[r].phase == Finished(Received(response))
  {
    assert ChannelOk(s, r);
    TakeInv(s, token, response);
    var a := Next(s, Take(token, response));
    assert a.deliveries[token] == Delivery(r, response);
    assert UnderWay(a, r) && ChannelOk(a, r);
  }

  /** A shutdown cancels a request that waits in the table, an expired one has timed out, and a failed write is one. */
  lemma {:induction false} Ended(s: State, r: nat)
    requires Inv(s)
    ensures Waits(s, r) && InTable(s, r) && Enabled(s, CancelAll) ==>
              var a := Next(s, CancelAll);
              Enabled(a, Receive(r)) && Next(a, Receive(r)).requests[r].phase == Finished(RequestCancelled)
    ensures Waits(s, r) ==> Next(s, Expire(r)).requests[r].phase == Finished(TimedOut)
    ensures Enabled(s, Write(r, false)) ==> Next(s, Write(r, false)).requests[r].phase == Finished(WriteFailed)
    ensures Enabled(s, Write(r, true)) ==> Next(s, Write(r, true)).requests[r].phase == Waiting
  {
    if r < |s.requests| {
      assert ChannelOk(s, r);
    }
  }
}
