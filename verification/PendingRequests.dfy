/** Requests from the core to its wrapper: the table of pending requests and its channels, under every interleaving of
    senders, the reader that resolves responses, the shutdown and timeouts. */
module PendingRequests {
  import opened Bytes

  datatype Response = Response(id: Option<int>, payload: string)

  /** A channel with room for one response. The counters record every send and every close. */
  datatype Channel = Channel(buffer: Option<Response>, sends: nat, closes: nat)

  datatype Result = Received(response: Response) | RequestCancelled | TimedOut | WriteFailed

  datatype Phase = Numbered | Registered | Waiting | Finished(result: Result)

  /** A sender of a request. Its channel exists once it has registered. */
  datatype Request = Request(id: int, phase: Phase, channel: Option<Channel>)

  /** A response on its way from the table to a channel: the lock is released in between. */
  datatype Delivery = Delivery(request: nat, response: Response)

  datatype State = State(nextId: int, pending: map<int, nat>, requests: seq<Request>, deliveries: map<nat, Delivery>)

  const START := State(0, map[], [], map[])

  datatype Step =
    | Number
    | Register(r: nat)
    | Write(r: nat, ok: bool)
    | Take(token: nat, response: Response)
    | Deliver(token: nat)
    | CancelAll
    | Receive(r: nat)
    | Expire(r: nat)

  predicate Waits(s: State, r: nat) {
    r < |s.requests| && s.requests[r].phase.Waiting? && s.requests[r].channel.Some?
  }

  /** When a step can be taken. Deliver has to wait while the channel is full. */
  predicate Enabled(s: State, step: Step) {
    match step
    case Number => true
    case Register(r) => r < |s.requests| && s.requests[r].phase.Numbered?
    case Write(r, _) => r < |s.requests| && s.requests[r].phase.Registered?
    case Take(token, _) => token !in s.deliveries
    case Deliver(token) =>
      token in s.deliveries && s.deliveries[token].request < |s.requests| &&
      s.requests[s.deliveries[token].request].channel.Some? && s.requests[s.deliveries[token].request].channel.value.buffer.None?
    case CancelAll => forall id :: id in s.pending ==> HasChannel(s, s.pending[id])
    case Receive(r) => Waits(s, r) && (s.requests[r].channel.value.buffer.Some? || s.requests[r].channel.value.closes > 0)
    case Expire(r) => Waits(s, r)
  }

  predicate HasChannel(s: State, r: nat) {
    r < |s.requests| && s.requests[r].channel.Some?
  }

  function Close(q: Request): Request
    requires q.channel.Some?
  {
    q.(channel := Some(q.channel.value.(closes := q.channel.value.closes + 1)))
  }

  /** The requests with the channels of those in `ids` closed. */
  function CloseAll(requests: seq<Request>, pending: map<int, nat>): (closed: seq<Request>)
    requires forall id :: id in pending ==> pending[id] < |requests| && requests[pending[id]].channel.Some?
    ensures |closed| == |requests|
  {
    seq(|requests|, i requires 0 <= i < |requests| =>
      if requests[i].id in pending && pending[requests[i].id] == i then Close(requests[i]) else requests[i])
  }

  function Next(s: State, step: Step): State
    requires Enabled(s, step)
  {
    match step
    case Number =>
      s.(nextId := s.nextId + 1, requests := s.requests + [Request(s.nextId + 1, Numbered, None)])
    case Register(r) =>
      var q := s.requests[r];
      s.(pending := s.pending[q.id := r], requests := s.requests[r := Request(q.id, Registered, Some(Channel(None, 0, 0)))])
    case Write(r, ok) =>
      s.(requests := s.requests[r := s.requests[r].(phase := if ok then Waiting else Finished(WriteFailed))])
    case Take(token, response) =>
      if response.id.None? || response.id.value !in s.pending then s
      else
        var id := response.id.value;
        s.(pending := s.pending - {id}, deliveries := s.deliveries[token := Delivery(s.pending[id], response)])
    case Deliver(token) =>
      var d := s.deliveries[token];
      var q := s.requests[d.request];
      var channel := q.channel.value.(buffer := Some(d.response), sends := q.channel.value.sends + 1);
      s.(requests := s.requests[d.request := q.(channel := Some(channel))], deliveries := s.deliveries - {token})
    case CancelAll =>
      s.(pending := map[], requests := CloseAll(s.requests, s.pending))
    case Receive(r) =>
      var q := s.requests[r];
      match q.channel.value.buffer {
        case Some(response) =>
          s.(requests := s.requests[r := Request(q.id, Finished(Received(response)), Some(q.channel.value.(buffer := None)))])
        case None =>
          s.(requests := s.requests[r := q.(phase := Finished(RequestCancelled))])
      }
    case Expire(r) =>
      s.(requests := s.requests[r := s.requests[r].(phase := Finished(TimedOut))])
  }

  // ---------- The invariant ----------

  predicate InTable(s: State, r: nat) {
    r < |s.requests| && s.requests[r].id in s.pending && s.pending[s.requests[r].id] == r
  }

  ghost predicate UnderWay(s: State, r: nat) {
    exists token :: token in s.deliveries && s.deliveries[token].request == r
  }

  /** A channel is untouched while its request is in the table or a response to it is under way, and once it has been sent
      on or closed it is neither. So it is sent on or closed once in all. */
  ghost predicate ChannelOk(s: State, r: nat)
    requires r < |s.requests|
  {
    var q := s.requests[r];
    && q.id == r + 1
    && (q.channel.None? <==> q.phase.Numbered?)
    && (q.channel.None? ==> !InTable(s, r) && !UnderWay(s, r))
    && (q.channel.Some? ==>
          var c := q.channel.value;
          && !(InTable(s, r) && UnderWay(s, r))
          && (if InTable(s, r) || UnderWay(s, r) then c.sends == 0 && c.closes == 0 else c.sends + c.closes == 1)
          && (c.buffer.Some? ==> c.sends == 1 && c.buffer.value.id == Some(q.id))
          && (c.sends == 1 && c.buffer.None? ==> q.phase.Finished?))
    && (q.phase.Finished? && q.phase.result.Received? ==> q.phase.result.response.id == Some(q.id))
  }

  ghost predicate DeliveryOk(s: State, token: nat)
    requires token in s.deliveries
  {
    var d := s.deliveries[token];
    && d.request < |s.requests| && d.response.id == Some(d.request + 1)
    && forall other :: other in s.deliveries && s.deliveries[other].request == d.request ==> other == token
  }

  ghost predicate Inv(s: State) {
    && s.nextId == |s.requests|
    && (forall r :: 0 <= r < |s.requests| ==> ChannelOk(s, r))
    && (forall id :: id in s.pending ==> s.pending[id] == id - 1 && s.pending[id] < |s.requests|)
    && (forall token :: token in s.deliveries ==> DeliveryOk(s, token))
  }

  /** A request that a step does not touch stays in order. */
  lemma {:induction false} Untouched(s: State, t: State, r: nat)
    requires r < |s.requests| && r < |t.requests| && s.requests[r] == t.requests[r]
    requires InTable(s, r) == InTable(t, r) && UnderWay(s, r) == UnderWay(t, r) && ChannelOk(s, r)
    ensures ChannelOk(t, r)
  {}

  lemma {:induction false} SameDeliveries(s: State, t: State, r: nat)
    requires s.deliveries == t.deliveries
    ensures UnderWay(s, r) == UnderWay(t, r)
  {}

  lemma {:induction false} NumberInv(s: State)
    requires Inv(s)
    ensures Inv(Next(s, Number))
  {
    var t, n := Next(s, Number), |s.requests|;
    assert forall token :: token in s.deliveries ==> DeliveryOk(s, token) && s.deliveries[token].request < n;
    assert !UnderWay(t, n);
    forall r | 0 <= r < |t.requests|
      ensures ChannelOk(t, r)
    {
      SameDeliveries(s, t, r);
      if r < n {
        Untouched(s, t, r);
      }
    }
  }

  lemma {:induction false} RegisterInv(s: State, r: nat)
    requires Inv(s) && Enabled(s, Register(r))
    ensures Inv(Next(s, Register(r)))
  {
    var t := Next(s, Register(r));
    assert ChannelOk(s, r);
    forall i | 0 <= i < |t.requests|
      ensures ChannelOk(t, i)
    {
      assert ChannelOk(s, i);
      SameDeliveries(s, t, i);
      if i != r {
        Untouched(s, t, i);
      }
    }
    assert forall token :: token in t.deliveries ==> DeliveryOk(s, token);
  }

  /** Steps that only move a request along: its channel stays as it is, or loses the response that the request takes. */
  lemma {:induction false} PhaseInv(s: State, step: Step)
    requires Inv(s) && Enabled(s, step) && (step.Write? || step.Receive? || step.Expire?)
    ensures Inv(Next(s, step))
  {
    var t := Next(s, step);
    assert ChannelOk(s, step.r);
    forall i | 0 <= i < |t.requests|
      ensures ChannelOk(t, i)
    {
      assert ChannelOk(s, i);
      SameDeliveries(s, t, i);
      assert InTable(s, i) == InTable(t, i);
      if i != step.r {
        Untouched(s, t, i);
      }
    }
    assert forall token :: token in t.deliveries ==> DeliveryOk(s, token);
  }

  lemma {:induction false} TakeInv(s: State, token: nat, response: Response)
    requires Inv(s) && Enabled(s, Take(token, response))
    ensures Inv(Next(s, Take(token, response)))
  {
    var t := Next(s, Take(token, response));
    if response.id.Some? && response.id.value in s.pending {
      var id := response.id.value;
      var taken := s.pending[id];
      assert ChannelOk(s, taken) && InTable(s, taken) && !UnderWay(s, taken);
      forall i | 0 <= i < |t.requests|
        ensures ChannelOk(t, i)
      {
        assert ChannelOk(s, i);
        if i == taken {
          assert t.deliveries[token].request == taken;
          assert UnderWay(t, i) && !InTable(t, i);
        } else {
          if UnderWay(s, i) {
            var other :| other in s.deliveries && s.deliveries[other].request == i;
            assert other in t.deliveries && t.deliveries[other].request == i;
          }
          if UnderWay(t, i) {
            var other :| other in t.deliveries && t.deliveries[other].request == i;
            assert other in s.deliveries;
          }
          Untouched(s, t, i);
        }
      }
      forall other | other in t.deliveries
        ensures DeliveryOk(t, other)
      {
        assert other != token ==> DeliveryOk(s, other) && s.deliveries[other].request != taken;
      }
    }
  }

  lemma {:induction false} DeliverInv(s: State, token: nat)
    requires Inv(s) && Enabled(s, Deliver(token))
    ensures Inv(Next(s, Deliver(token)))
  {
    var t := Next(s, Deliver(token));
    var d := s.deliveries[token];
    assert DeliveryOk(s, token);
    assert UnderWay(s, d.request) && ChannelOk(s, d.request);
    forall i | 0 <= i < |t.requests|
      ensures ChannelOk(t, i)
    {
      assert ChannelOk(s, i);
      if i == d.request {
        assert !UnderWay(t, i);
      } else {
        if UnderWay(s, i) {
          var other :| other in s.deliveries && s.deliveries[other].request == i;
          assert other in t.deliveries && t.deliveries[other].request == i;
        }
        if UnderWay(t, i) {
          var other :| other in t.deliveries && t.deliveries[other].request == i;
          assert other in s.deliveries;
        }
        Untouched(s, t, i);
      }
    }
    assert forall other :: other in t.deliveries ==> DeliveryOk(s, other);
  }

  lemma {:induction false} CancelInv(s: State)
    requires Inv(s) && Enabled(s, CancelAll)
    ensures Inv(Next(s, CancelAll))
  {
    var t := Next(s, CancelAll);
    forall i | 0 <= i < |t.requests|
      ensures ChannelOk(t, i)
    {
      assert ChannelOk(s, i);
      SameDeliveries(s, t, i);
      if !InTable(s, i) {
        Untouched(s, t, i);
      }
    }
    assert forall token :: token in t.deliveries ==> DeliveryOk(s, token);
  }

  lemma {:induction false} StepInv(s: State, step: Step)
    requires Inv(s) && Enabled(s, step)
    ensures Inv(Next(s, step))
  {
    match step
    case Number => NumberInv(s);
    case Register(r) => RegisterInv(s, r);
    case Take(token, response) => TakeInv(s, token, response);
    case Deliver(token) => DeliverInv(s, token);
    case CancelAll => CancelInv(s);
    case _ => PhaseInv(s, step);
  }

  // ---------- Runs ----------

  /** `states` is what a sequence of steps goes through from the start. */
  ghost predicate IsRun(states: seq<State>, steps: seq<Step>) {
    && |states| == |steps| + 1 && states[0] == START
    && forall i :: 0 <= i < |steps| ==> Enabled(states[i], steps[i]) && states[i + 1] == Next(states[i], steps[i])
  }

  lemma {:induction false} RunInv(states: seq<State>, steps: seq<Step>, n: nat)
    requires IsRun(states, steps) && n < |states|
    ensures Inv(states[n])
  {
    if n == 0 {
    } else {
      RunInv(states, steps, n - 1);
      StepInv(states[n - 1], steps[n - 1]);
    }
  }

  /** Main result: in every state of every run, each channel has been sent on or closed at most once and not both, a
      response arrives only at the request with its id, and a response under way finds its channel open and empty: the
      resolver neither blocks nor sends on a closed channel. */
  lemma {:induction false} Safety(states: seq<State>, steps: seq<Step>, n: nat)
    requires IsRun(states, steps) && n < |states|
    ensures var s := states[n];
            && (forall r :: 0 <= r < |s.requests| && s.requests[r].channel.Some? ==>
                  s.requests[r].channel.value.sends + s.requests[r].channel.value.closes <= 1)
            && (forall r :: 0 <= r < |s.requests| && s.requests[r].phase.Finished? && s.requests[r].phase.result.Received? ==>
                  s.requests[r].phase.result.response.id == Some(s.requests[r].id))
            && (forall token :: token in s.deliveries ==>
                  Enabled(s, Deliver(token)) && s.requests[s.deliveries[token].request].channel.value.closes == 0)
  {
    RunInv(states, steps, n);
    var s := states[n];
    forall r | 0 <= r < |s.requests|
      ensures s.requests[r].channel.Some? ==> s.requests[r].channel.value.sends + s.requests[r].channel.value.closes <= 1
      ensures s.requests[r].phase.Finished? && s.requests[r].phase.result.Received? ==>
                s.requests[r].phase.result.response.id == Some(s.requests[r].id)
    {
      assert ChannelOk(s, r);
    }
    forall token | token in s.deliveries
      ensures Enabled(s, Deliver(token)) && s.requests[s.deliveries[token].request].channel.value.closes == 0
    {
      assert DeliveryOk(s, token);
      assert UnderWay(s, s.deliveries[token].request) && ChannelOk(s, s.deliveries[token].request);
    }
  }

  /** No response and no shutdown is lost: a request that waits can finish now, or a response to it is under way, or it is
      still in the table. */
  lemma {:induction false} NoLostWakeup(states: seq<State>, steps: seq<Step>, n: nat, r: nat)
    requires IsRun(states, steps) && n < |states| && Waits(states[n], r)
    ensures Enabled(states[n], Receive(r)) || UnderWay(states[n], r) || InTable(states[n], r)
    ensures Enabled(states[n], Receive(r)) ==> !UnderWay(states[n], r) && !InTable(states[n], r)
  {
    RunInv(states, steps, n);
    assert ChannelOk(states[n], r);
  }

  /** The shutdown can always run, and it wakes exactly the requests that are in the table when it does. */
  lemma {:induction false} ShutdownWakes(states: seq<State>, steps: seq<Step>, n: nat, r: nat)
    requires IsRun(states, steps) && n < |states| && Waits(states[n], r)
    ensures Enabled(states[n], CancelAll)
    ensures var t := Next(states[n], CancelAll);
            (Enabled(t, Receive(r)) <==> Enabled(states[n], Receive(r)) || InTable(states[n], r)) && !InTable(t, r)
  {
    RunInv(states, steps, n);
    var s := states[n];
    forall id | id in s.pending
      ensures HasChannel(s, s.pending[id])
    {
      assert ChannelOk(s, s.pending[id]) && InTable(s, s.pending[id]);
    }
    assert ChannelOk(s, r);
  }

  /** The request has not been cancelled, and nothing can make it so. */
  predicate Uncancelled(s: State, r: nat) {
    r < |s.requests| ==>
      && s.requests[r].phase != Finished(RequestCancelled)
      && (s.requests[r].channel.Some? ==> s.requests[r].channel.value.closes == 0)
  }

  /** A request that registers after the last shutdown is never cancelled: only a response or its own timeout ends its wait. */
  lemma {:induction false} LateRequest(states: seq<State>, steps: seq<Step>, n: nat, m: nat, r: nat)
    requires IsRun(states, steps) && n <= m < |states|
    requires r < |states[n].requests| ==> states[n].requests[r].phase.Numbered?
    requires forall i :: n <= i < m ==> !steps[i].CancelAll?
    ensures Uncancelled(states[m], r)
    ensures Waits(states[m], r) ==>
              InTable(states[m], r) || UnderWay(states[m], r) || states[m].requests[r].channel.value.buffer.Some?
  {
    if n < m {
      LateRequest(states, steps, n, m - 1, r);
      LateStep(states[m - 1], steps[m - 1], r);
    } else {
      RunInv(states, steps, n);
      assert r < |states[n].requests| ==> ChannelOk(states[n], r);
    }
    if Waits(states[m], r) {
      RunInv(states, steps, m);
      assert ChannelOk(states[m], r);
    }
  }

  lemma {:induction false} LateStep(s: State, step: Step, r: nat)
    requires Enabled(s, step) && !step.CancelAll? && Uncancelled(s, r)
    ensures Uncancelled(Next(s, step), r)
  {}

  // ---------- The table as an object ----------

  method AnyOf<T>(s: set<T>) returns (x: T)
    requires s != {}
    ensures x in s
  {
    x :| x in s;
  }

  /** The table, its lock, and the senders. Each method is one section that nothing else interleaves with. */
  class Table {
    var nextId: int
    var pending: map<int, nat>
    var requests: seq<Request>
    var deliveries: map<nat, Delivery>

    function Get(): State
      reads this
    {
      State(nextId, pending, requests, deliveries)
    }

    constructor ()
      ensures Get() == START
    {
      nextId, pending, requests, deliveries := 0, map[], [], map[];
    }

    method NextRequestId() returns (r: nat)
      modifies this
      ensures Get() == Next(old(Get()), Number) && r == |old(requests)| && requests[r].id == old(nextId) + 1
    {
      nextId := nextId + 1;
      r := |requests|;
      requests := requests + [Request(nextId, Numbered, None)];
    }

    method RegisterRequest(r: nat)
      requires Enabled(Get(), Register(r))
      modifies this
      ensures Get() == Next(old(Get()), Register(r))
    {
      var channel := Channel(None, 0, 0);
      pending := pending[requests[r].id := r];
      requests := requests[r := Request(requests[r].id, Registered, Some(channel))];
    }

    /** The locked half of resolving a response. */
    method TakePending(token: nat, response: Response) returns (found: bool)
      requires Enabled(Get(), Take(token, response))
      modifies this
      ensures Get() == Next(old(Get()), Take(token, response))
      ensures found <==> response.id.Some? && response.id.value in old(pending)
    {
      if response.id.None? {
        return false;
      }
      var id := response.id.value;
      found := id in pending;
      if found {
        deliveries := deliveries[token := Delivery(pending[id], response)];
        pending := pending - {id};
      }
    }

    /** The other half, outside the lock. */
    method SendResponse(token: nat)
      requires Enabled(Get(), Deliver(token))
      modifies this
      ensures Get() == Next(old(Get()), Deliver(token))
    {
      var d := deliveries[token];
      var channel := requests[d.request].channel.value;
      channel := channel.(buffer := Some(d.response), sends := channel.sends + 1);
      requests := requests[d.request := requests[d.request].(channel := Some(channel))];
      deliveries := deliveries - {token};
    }

    /** The shutdown closes and deletes one entry after the other. */
    method CancelPending()
      requires Inv(Get()) && Enabled(Get(), CancelAll)
      modifies `pending, `requests
      ensures Get() == Next(old(Get()), CancelAll)
    {
      ghost var all, was := pending, requests;
      var ids := pending.Keys;
      while |ids| > 0
        invariant ids == pending.Keys && ids <= all.Keys && forall id :: id in pending ==> pending[id] == all[id]
        invariant |requests| == |was|
        invariant forall i :: 0 <= i < |was| ==>
                    requests[i] == if was[i].id in all && all[was[i].id] == i && was[i].id !in pending then Close(was[i]) else was[i]
        decreases |ids|
      {
        var id := AnyOf(ids);
        var r := pending[id];
        assert ChannelOk(old(Get()), r);
        requests := requests[r := Close(requests[r])];
        pending := pending - {id};
        ids := ids - {id};
      }
    }
  }
}
