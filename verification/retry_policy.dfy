/**
 The AMQP retry policy (`queue_helper.py`), which the source writes twice: in the push consumer
 (`consume_queue`) and inlined in the polling one (`drain_queue_once`). Both are proved here
 against one list of broker effects per delivery.
 */
module RetryPolicy {
  import opened Wrappers

  /** A header value, by what `int(...)` makes of it. */
  datatype HeaderValue = Readable(n: int) | Unreadable

  type Headers = map<string, HeaderValue>

  const RETRY_HEADER := "x-retry-count"

  /** A body, by what `json.loads` makes of it: an object, another JSON value, or an error. */
  datatype Body<+P> = Object(payload: P) | OtherJson | Garbage

  datatype Message<+P> = Message(body: Body<P>, headers: Option<Headers>)

  datatype Decision = Decision(retry: bool, headers: Headers, count: int)

  function RetryCount(headers: Option<Headers>): int
  {
    if headers.Some? && RETRY_HEADER in headers.value && headers.value[RETRY_HEADER].Readable?
    then headers.value[RETRY_HEADER].n else 0
  }

  function NextRetryDecision(headers: Option<Headers>, maxRetries: int): (d: Decision)
    ensures d.retry <==> RetryCount(headers) < maxRetries
    ensures d.retry ==> RetryCount(Some(d.headers)) == d.count == RetryCount(headers) + 1
    ensures !d.retry ==> d.count == RetryCount(headers)
    ensures forall h :: h != RETRY_HEADER ==>
              (h in d.headers <==> headers.Some? && h in headers.value)
                && (h in d.headers ==> d.headers[h] == headers.value[h])
  {
    var current := if headers.Some? then headers.value else map[];
    var count := RetryCount(headers);
    if count >= maxRetries then Decision(false, current, count)
    else Decision(true, current[RETRY_HEADER := Readable(count + 1)], count + 1)
  }

  // ---- One delivery ---------------------------------------------------------------------------

  /** A call of `on_give_up`. */
  datatype Call<+P> = Call(payload: P, count: int)

  datatype Effect<+P> = Publish(message: Message<P>) | Ack | GiveUp(call: Call<P>)

  /** The effects of a delivery in the order they happen; `ok` is false if the callback returned False or raised. */
  function Effects<P>(m: Message<P>, maxRetries: int, ok: bool): seq<Effect<P>>
    requires !m.body.OtherJson?
  {
    if m.body.Garbage? || ok then [Ack]
    else
      var d := NextRetryDecision(m.headers, maxRetries);
      if d.retry then [Publish(Message(m.body, Some(d.headers))), Ack]
      else [Ack, GiveUp(Call(m.body.payload, d.count))]
  }

  /** The queue, the delivery that is not acked yet, and the give-up calls made so far. */
  datatype View<P> = View(queue: seq<Message<P>>, unacked: Option<Message<P>>, givenUp: seq<Call<P>>)

  function Perform<P>(v: View<P>, e: Effect<P>): View<P>
  {
    match e
    case Publish(m) => v.(queue := v.queue + [m])
    case Ack => v.(unacked := None)
    case GiveUp(call) => v.(givenUp := v.givenUp + [call])
  }

  function PerformAll<P>(v: View<P>, es: seq<Effect<P>>): View<P>
    decreases |es|
  {
    if es == [] then v else PerformAll(Perform(v, es[0]), es[1..])
  }

  lemma PerformOneOrTwo<P>(v: View<P>, a: Effect<P>, b: Effect<P>)
    ensures PerformAll(v, [a]) == Perform(v, a)
    ensures PerformAll(v, [a, b]) == Perform(Perform(v, a), b)
  {
    assert [a][1..] == [] && [a, b][1..] == [b] && [b][1..] == [];
    assert PerformAll(Perform(v, a), [b]) == PerformAll(Perform(Perform(v, a), b), []);
  }

  function Delivered<P>(v: View<P>, maxRetries: int, ok: bool): View<P>
    requires v.unacked.Some? && !v.unacked.value.body.OtherJson?
  {
    PerformAll(v, Effects(v.unacked.value, maxRetries, ok))
  }

  /** The connection is gone: the broker puts an unacked delivery back at the head. */
  function Closed<P>(v: View<P>): View<P>
  {
    if v.unacked.Some? then v.(queue := [v.unacked.value] + v.queue, unacked := None) else v
  }

  /** The view a delivery leaves, written out. */
  lemma DeliveredView<P>(v: View<P>, maxRetries: int, ok: bool)
    requires v.unacked.Some? && !v.unacked.value.body.OtherJson?
    ensures
      var m := v.unacked.value;
      var d := NextRetryDecision(m.headers, maxRetries);
      Delivered(v, maxRetries, ok) ==
      if m.body.Garbage? || ok then View(v.queue, None, v.givenUp)
      else if RetryCount(m.headers) < maxRetries
        then View(v.queue + [Message(m.body, Some(d.headers))], None, v.givenUp)
      else View(v.queue, None, v.givenUp + [Call(m.body.payload, RetryCount(m.headers))])
  {
    var m := v.unacked.value;
    var es := Effects(m, maxRetries, ok);
    PerformOneOrTwo(v, es[0], if |es| == 1 then Ack else es[1]);
    assert es == if |es| == 1 then [es[0]] else [es[0], es[1]];
  }

  /**
   At least once: whatever prefix of the effects a crash leaves, a failed delivery with budget left is still queued.
   */
  lemma CrashKeepsMessage<P>(v: View<P>, maxRetries: int, k: nat)
    requires v.unacked.Some? && v.unacked.value.body.Object? && RetryCount(v.unacked.value.headers) < maxRetries
    requires k <= |Effects(v.unacked.value, maxRetries, false)|
    ensures
      var after := Closed(PerformAll(v, Effects(v.unacked.value, maxRetries, false)[..k]));
      && (exists m :: m in after.queue && m.body == v.unacked.value.body)
      && (k == 1 ==> |after.queue| == |v.queue| + 2) // the price: a crash between publish and ack leaves two copies
      && (k != 1 ==> |after.queue| == |v.queue| + 1)
  {
    var m := v.unacked.value;
    var es := Effects(m, maxRetries, false);
    var next := es[0].message;
    assert es == [Publish(next), Ack];
    PerformOneOrTwo(v, Publish(next), Ack);
    var after := Closed(PerformAll(v, es[..k]));
    assert k == 1 ==> es[..k] == [Publish(next)];
    assert k == 2 ==> es[..k] == es;
    assert if k == 2 then after.queue[|v.queue|] == next else after.queue[0] == m;
  }

  // ---- The drain --------------------------------------------------------------------------------

  /** Deliveries a message can still cost. */
  function Attempts<P>(m: Message<P>, maxRetries: int): nat
  {
    var left := maxRetries - RetryCount(m.headers);
    (if left > 0 then left else 0) + 1
  }

  function Work<P>(q: seq<Message<P>>, maxRetries: int): nat
  {
    if q == [] then 0 else Attempts(q[0], maxRetries) + Work(q[1..], maxRetries)
  }

  lemma {:induction false} WorkAppend<P>(q: seq<Message<P>>, m: Message<P>, maxRetries: int)
    ensures Work(q + [m], maxRetries) == Work(q, maxRetries) + Attempts(m, maxRetries)
  {
    if q == [] {
      assert [m][1..] == [];
      assert q + [m] == [m];
    } else {
      assert (q + [m])[1..] == q[1..] + [m];
      WorkAppend(q[1..], m, maxRetries);
    }
  }

  /** A retry costs one delivery of the budget; everything else takes the message out. */
  lemma DeliveryUsesWork<P>(v: View<P>, maxRetries: int, ok: bool)
    requires v.unacked.Some? && !v.unacked.value.body.OtherJson?
    ensures
      var m := v.unacked.value;
      Work(Delivered(v, maxRetries, ok).queue, maxRetries) ==
      Work(v.queue, maxRetries)
      + if m.body.Object? && !ok && RetryCount(m.headers) < maxRetries then Attempts(m, maxRetries) - 1 else 0
  {
    var m := v.unacked.value;
    DeliveredView(v, maxRetries, ok);
    if m.body.Object? && !ok && RetryCount(m.headers) < maxRetries {
      WorkAppend(v.queue, Message(m.body, Some(NextRetryDecision(m.headers, maxRetries).headers)), maxRetries);
    }
  }

  function Get<P>(v: View<P>): View<P>
    requires v.queue != [] && v.unacked.None?
  {
    View(v.queue[1..], Some(v.queue[0]), v.givenUp)
  }

  datatype Drained<P> = Drained(view: View<P>, handled: nat, raised: bool)

  /** `callback(p, k)` is the outcome the callback gives to payload `p` when it is the k-th delivery of this drain. */
  function Drain<P>(v: View<P>, k: nat, maxRetries: int, callback: (P, nat) -> bool): (r: Drained<P>)
    requires v.unacked.None?
    ensures r.view.unacked.None?
    ensures !r.raised ==> r.view.queue == []
    decreases Work(v.queue, maxRetries)
  {
    if v.queue == [] then Drained(v, 0, false)
    else
      var got, m := Get(v), v.queue[0];
      if m.body.OtherJson? then Drained(Closed(got), 1, true)
      else
        var ok := m.body.Object? && callback(m.body.payload, k);
        DeliveryUsesWork(got, maxRetries, ok);
        DeliveredView(got, maxRetries, ok);
        var rest := Drain(Delivered(got, maxRetries, ok), k + 1, maxRetries, callback);
        rest.(handled := rest.handled + 1)
  }

  class Channel<P> {
    var queue: seq<Message<P>>
    var unacked: Option<Message<P>>
    var givenUp: seq<Call<P>>

    ghost function Now(): View<P>
      reads this
    {
      View(queue, unacked, givenUp)
    }

    constructor (messages: seq<Message<P>>)
      ensures Now() == View(messages, None, [])
    {
      queue, unacked, givenUp := messages, None, [];
    }

    method BasicPublish(m: Message<P>)
      modifies this
      ensures Now() == Perform(old(Now()), Publish(m))
    {
      queue := queue + [m];
    }

    method BasicAck()
      modifies this
      ensures Now() == Perform(old(Now()), Ack)
    {
      unacked := None;
    }

    method RepublishOrDrop(maxRetries: int)
      requires unacked.Some? && unacked.value.body.Object?
      modifies this
      ensures Now() == Delivered(old(Now()), maxRetries, false)
    {
      DeliveredView(Now(), maxRetries, false);
      var m := unacked.value;
      var d := NextRetryDecision(m.headers, maxRetries);
      if d.retry {
        BasicPublish(Message(m.body, Some(d.headers)));
        BasicAck();
        return;
      }
      BasicAck();
      givenUp := givenUp + [Call(m.body.payload, d.count)];
    }

    /** The push path. Another JSON value than an object raises before anything is acked. */
    method OnMessage(maxRetries: int, ok: bool) returns (raised: bool)
      requires unacked.Some?
      modifies this
      ensures raised <==> old(unacked).value.body.OtherJson?
      ensures Now() == if raised then old(Now()) else Delivered(old(Now()), maxRetries, ok)
    {
      raised := false;
      var m := unacked.value;
      if m.body.OtherJson? {
        return true;
      }
      DeliveredView(Now(), maxRetries, ok);
      if m.body.Garbage? {
        BasicAck();
        return;
      }
      if ok {
        BasicAck();
        return;
      }
      RepublishOrDrop(maxRetries);
    }

    /** The pull path, with the policy inlined as in the source. */
    method DrainQueueOnce(maxRetries: int, callback: (P, nat) -> bool) returns (handled: nat, raised: bool)
      requires unacked.None?
      modifies this
      ensures Drained(Now(), handled, raised) == Drain(old(Now()), 0, maxRetries, callback)
    {
      handled, raised := 0, false;
      ghost var whole := Drain(Now(), 0, maxRetries, callback);
      while queue != []
        invariant unacked.None? && !raised
        invariant var rest := Drain(Now(), handled, maxRetries, callback);
                  whole == rest.(handled := handled + rest.handled)
        decreases Work(queue, maxRetries)
      {
        ghost var before := Now();
        var m := queue[0];
        queue, unacked := queue[1..], Some(m);
        ghost var got := Now();
        var k := handled;
        handled := handled + 1;
        if m.body.OtherJson? {
          queue, unacked := [m] + queue, None;
          raised := true;
          break;
        }
        ghost var ok := m.body.Object? && callback(m.body.payload, k);
        DeliveredView(got, maxRetries, ok);
        DeliveryUsesWork(got, maxRetries, ok);
        if m.body.Garbage? {
          unacked := None;
          continue;
        }
        var success := callback(m.body.payload, k);
        if success {
          unacked := None;
          continue;
        }
        var d := NextRetryDecision(m.headers, maxRetries);
        if d.retry {
          queue := queue + [Message(m.body, Some(d.headers))];
          unacked := None;
          continue;
        }
        unacked := None;
        givenUp := givenUp + [Call(m.body.payload, d.count)];
      }
    }
  }

  // ---- What a drain does in all -----------------------------------------------------------------

  /** A drain ends although it refills its queue: it handles at most the summed budgets of the messages. */
  lemma {:induction false} DrainBound<P>(v: View<P>, k: nat, maxRetries: int, callback: (P, nat) -> bool)
    requires v.unacked.None?
    ensures Drain(v, k, maxRetries, callback).handled <= Work(v.queue, maxRetries)
    decreases Work(v.queue, maxRetries)
  {
    if v.queue != [] && !v.queue[0].body.OtherJson? {
      var m := v.queue[0];
      var ok := m.body.Object? && callback(m.body.payload, k);
      DeliveryUsesWork(Get(v), maxRetries, ok);
      DeliveredView(Get(v), maxRetries, ok);
      DrainBound(Delivered(Get(v), maxRetries, ok), k + 1, maxRetries, callback);
    }
  }

  predicate AllObjects<P>(q: seq<Message<P>>)
  {
    forall i :: 0 <= i < |q| ==> q[i].body.Object?
  }

  /** The bound is reached when everything parses and the callback never succeeds. */
  lemma {:induction false} DrainBoundReached<P(!new)>(v: View<P>, k: nat, maxRetries: int, callback: (P, nat) -> bool)
    requires v.unacked.None? && AllObjects(v.queue)
    requires forall p: P, i: nat :: !callback(p, i)
    ensures Drain(v, k, maxRetries, callback).handled == Work(v.queue, maxRetries)
    decreases Work(v.queue, maxRetries)
  {
    if v.queue != [] {
      DeliveryUsesWork(Get(v), maxRetries, false);
      DeliveredView(Get(v), maxRetries, false);
      DrainBoundReached(Delivered(Get(v), maxRetries, false), k + 1, maxRetries, callback);
    }
  }

  /** How the message would be given up: its payload, with the retry count it has by then. */
  function Last<P>(m: Message<P>, maxRetries: int): Call<P>
    requires m.body.Object?
  {
    var count := RetryCount(m.headers);
    Call(m.body.payload, if count < maxRetries then maxRetries else count)
  }

  ghost function Lasts<P>(q: seq<Message<P>>, maxRetries: int): multiset<Call<P>>
  {
    if q == [] then multiset{}
    else (if q[0].body.Object? then multiset{Last(q[0], maxRetries)} else multiset{}) + Lasts(q[1..], maxRetries)
  }

  lemma {:induction false} LastsAppend<P>(q: seq<Message<P>>, m: Message<P>, maxRetries: int)
    requires m.body.Object?
    ensures Lasts(q + [m], maxRetries) == Lasts(q, maxRetries) + multiset{Last(m, maxRetries)}
  {
    if q == [] {
      assert [m][1..] == [];
      assert q + [m] == [m];
    } else {
      assert (q + [m])[1..] == q[1..] + [m];
      LastsAppend(q[1..], m, maxRetries);
    }
  }

  /** The messages, as `Last` calls, that end with an ack after a successful callback. */
  ghost function Successes<P>(v: View<P>, k: nat, maxRetries: int, callback: (P, nat) -> bool): multiset<Call<P>>
    requires v.unacked.None?
    decreases Work(v.queue, maxRetries)
  {
    if v.queue == [] || v.queue[0].body.OtherJson? then multiset{}
    else
      var m := v.queue[0];
      var ok := m.body.Object? && callback(m.body.payload, k);
      DeliveryUsesWork(Get(v), maxRetries, ok);
      DeliveredView(Get(v), maxRetries, ok);
      (if ok then multiset{Last(m, maxRetries)} else multiset{})
      + Successes(Delivered(Get(v), maxRetries, ok), k + 1, maxRetries, callback)
  }

  /** One delivery moves its message to the tail, to the give-up calls, or to the successes. */
  lemma DeliveryConserves<P>(v: View<P>, maxRetries: int, ok: bool)
    requires v.unacked.None? && v.queue != [] && !v.queue[0].body.OtherJson?
    requires ok ==> v.queue[0].body.Object?
    ensures
      var m, next := v.queue[0], Delivered(Get(v), maxRetries, ok);
      multiset(v.givenUp) + Lasts(v.queue, maxRetries) ==
      multiset(next.givenUp) + Lasts(next.queue, maxRetries) + if ok then multiset{Last(m, maxRetries)} else multiset{}
  {
    var m := v.queue[0];
    DeliveredView(Get(v), maxRetries, ok);
    if m.body.Object? && !ok {
      LastsAppend(v.queue[1..], Message(m.body, Some(NextRetryDecision(m.headers, maxRetries).headers)), maxRetries);
    }
  }

  /**
   Conservation: every parseable message of a completed drain is acked after a success or given up,
   exactly once, and it is given up with its whole budget spent.
   */
  lemma {:induction false} DrainConserves<P>(v: View<P>, k: nat, maxRetries: int, callback: (P, nat) -> bool)
    requires v.unacked.None? && !Drain(v, k, maxRetries, callback).raised
    ensures multiset(Drain(v, k, maxRetries, callback).view.givenUp) + Successes(v, k, maxRetries, callback)
         == multiset(v.givenUp) + Lasts(v.queue, maxRetries)
    decreases Work(v.queue, maxRetries)
  {
    if v.queue != [] {
      var m := v.queue[0];
      var ok := m.body.Object? && callback(m.body.payload, k);
      DeliveryUsesWork(Get(v), maxRetries, ok);
      DeliveredView(Get(v), maxRetries, ok);
      DeliveryConserves(v, maxRetries, ok);
      DrainConserves(Delivered(Get(v), maxRetries, ok), k + 1, maxRetries, callback);
    }
  }

  predicate Poisoned<P>(q: seq<Message<P>>)
  {
    exists i :: 0 <= i < |q| && q[i].body.OtherJson?
  }

  lemma PoisonedParts<P>(q: seq<Message<P>>, m: Message<P>)
    ensures Poisoned(q + [m]) <==> Poisoned(q) || m.body.OtherJson?
    ensures Poisoned([m] + q) <==> Poisoned(q) || m.body.OtherJson?
  {
    if i :| 0 <= i < |q| && q[i].body.OtherJson? {
      assert (q + [m])[i] == q[i] && ([m] + q)[i + 1] == q[i];
    }
    assert (q + [m])[|q|] == m && ([m] + q)[0] == m;
  }

  /** A drain raises exactly when the queue holds JSON that is not an object, and then leaves one at the head. */
  lemma {:induction false} DrainRaises<P>(v: View<P>, k: nat, maxRetries: int, callback: (P, nat) -> bool)
    requires v.unacked.None?
    ensures Drain(v, k, maxRetries, callback).raised <==> Poisoned(v.queue)
    ensures Drain(v, k, maxRetries, callback).raised ==>
              var q := Drain(v, k, maxRetries, callback).view.queue; q != [] && q[0].body.OtherJson?
    decreases Work(v.queue, maxRetries)
  {
    if v.queue != [] && !v.queue[0].body.OtherJson? {
      var got, m := Get(v), v.queue[0];
      var ok := m.body.Object? && callback(m.body.payload, k);
      DeliveryUsesWork(got, maxRetries, ok);
      DeliveredView(got, maxRetries, ok);
      DrainRaises(Delivered(got, maxRetries, ok), k + 1, maxRetries, callback);
      assert v.queue == [m] + got.queue;
      PoisonedParts(got.queue, m);
      PoisonedParts(got.queue, Message(m.body, Some(NextRetryDecision(m.headers, maxRetries).headers)));
    }
  }

  /**
   From then on every drain handles that one message again, leaves the queue as it is, and nothing behind it moves.
   */
  lemma PoisonBlocksQueue<P>(v: View<P>, maxRetries: int, callback: (P, nat) -> bool)
    requires v.unacked.None? && v.queue != [] && v.queue[0].body.OtherJson?
    ensures Drain(v, 0, maxRetries, callback) == Drained(v, 1, true)
  {
    assert [v.queue[0]] + v.queue[1..] == v.queue;
  }
}
