/**
 The one-shot consume. Deliveries are buffered while the loop takes them and settled only afterwards:
 settling each at once would hand the same message back on the next get. What a get, an ack and a
 requeue do to the channel, and that each may fail, is in their contracts.
 */
module Consume {
  import opened Options

  datatype Message = Message(id: nat, payload: string)

  datatype Delivery = Delivery(tag: nat, message: Message)

  datatype Get = Get(delivery: Delivery, messageCount: nat)

  datatype Error = MissingQueue | ChannelError

  datatype Request = Request(queue: Option<string>, count: Option<nat>, ack: Option<bool>)

  datatype Response = Response(messageCount: nat, queueDepth: nat, messages: seq<Message>)

  const DEFAULT_COUNT: nat := 10

  function Min(a: nat, b: nat): nat { if a <= b then a else b }

  function Messages(ds: seq<Delivery>): (ms: seq<Message>)
    ensures |ms| == |ds| && forall k :: 0 <= k < |ds| ==> ms[k] == ds[k].message
  {
    seq(|ds|, k requires 0 <= k < |ds| => ds[k].message)
  }

  ghost predicate DistinctTags(ds: seq<Delivery>) {
    forall i, j :: 0 <= i < j < |ds| ==> ds[i].tag != ds[j].tag
  }

  function Without(ds: seq<Delivery>, tag: nat): seq<Delivery> {
    if ds == [] then [] else if ds[0].tag == tag then ds[1..] else [ds[0]] + Without(ds[1..], tag)
  }

  lemma {:induction false} WithoutMiddle(a: seq<Delivery>, d: Delivery, b: seq<Delivery>)
    requires forall k :: 0 <= k < |a| ==> a[k].tag != d.tag
    ensures Without(a + [d] + b, d.tag) == a + b
  {
    if a == [] {
      assert [] + [d] + b == [d] + b;
    } else {
      WithoutMiddle(a[1..], d, b);
      assert (a + [d] + b)[1..] == a[1..] + [d] + b;
      assert a + b == [a[0]] + (a[1..] + b);
    }
  }

  /** A channel on one queue: messages waiting in order, and deliveries the client has yet to settle. */
  class Channel {
    var ready: seq<Message>
    var unacked: seq<Delivery>
    var nextTag: nat

    ghost predicate Valid()
      reads this
    {
      && DistinctTags(unacked)
      && forall k :: 0 <= k < |unacked| ==> unacked[k].tag < nextTag
    }

    constructor (messages: seq<Message>)
      ensures Valid() && ready == messages && unacked == []
    {
      ready, unacked, nextTag := messages, [], 0;
    }

    /** Take the first waiting message, or fail; a failure changes nothing. */
    method BasicGet() returns (r: Result<Option<Get>, Error>)
      requires Valid()
      modifies this
      ensures Valid()
      ensures r.Err? || r.value.None? ==> ready == old(ready) && unacked == old(unacked) && nextTag == old(nextTag)
      ensures r.Ok? && r.value.None? ==> ready == []
      ensures r.Ok? && r.value.Some? ==>
                && old(ready) == [r.value.value.delivery.message] + ready
                && unacked == old(unacked) + [r.value.value.delivery]
                && r.value.value.messageCount == |ready|
    {
      if * { return Err(ChannelError); }
      if ready == [] { return Ok(None); }
      var d := Delivery(nextTag, ready[0]);
      ready, unacked, nextTag := ready[1..], unacked + [d], nextTag + 1;
      r := Ok(Some(Get(d, |ready|)));
    }

    /** Settle a delivery for good, or fail and change nothing. */
    method Ack(d: Delivery) returns (ok: bool)
      requires Valid() && d in unacked
      modifies this
      ensures Valid() && ready == old(ready)
      ensures unacked == if ok then Without(old(unacked), d.tag) else old(unacked)
    {
      ok := *;
      if ok {
        WithoutKeeps(unacked, d.tag, nextTag);
        unacked := Without(unacked, d.tag);
      }
    }

    /** Put a delivery back somewhere in the queue, or fail and change nothing. */
    method NackRequeue(d: Delivery) returns (ok: bool)
      requires Valid() && d in unacked
      modifies this
      ensures Valid()
      ensures unacked == if ok then Without(old(unacked), d.tag) else old(unacked)
      ensures multiset(ready) == old(multiset(ready)) + (if ok then multiset{d.message} else multiset{})
    {
      ok := *;
      if ok {
        var at :| 0 <= at <= |ready|;
        var was := ready;
        ready := was[..at] + [d.message] + was[at..];
        assert was == was[..at] + was[at..];
        WithoutKeeps(unacked, d.tag, nextTag);
        unacked := Without(unacked, d.tag);
      }
    }

    /** Drain up to `count` deliveries before settling any of them. */
    method Drain(count: nat) returns (r: Result<seq<Get>, Error>)
      requires Valid()
      modifies this
      ensures Valid()
      ensures var n := |unacked| - |old(unacked)|;
              && 0 <= n <= Min(count, |old(ready)|) && (r.Ok? ==> n == Min(count, |old(ready)|) == |r.value|)
              && ready == old(ready[n..]) && Messages(unacked[|old(unacked)|..]) == old(ready[..n])
              && unacked[..|old(unacked)|] == old(unacked)
      ensures r.Ok? ==> Deliveries(r.value) == unacked[|old(unacked)|..]
      ensures r.Ok? ==> forall k :: 0 <= k < |r.value| ==> r.value[k].messageCount == |old(ready)| - k - 1
    {
      var pending: seq<Get> := [];
      ghost var was, base := ready, unacked;
      for i := 0 to count
        invariant Valid() && |pending| == i <= |was| && ready == was[i..]
        invariant unacked == base + Deliveries(pending)
        invariant Messages(Deliveries(pending)) == was[..i]
        invariant forall k :: 0 <= k < i ==> pending[k].messageCount == |was| - k - 1
      {
        var result := BasicGet();
        match result {
          case Err(e) => assert unacked[|base|..] == Deliveries(pending); return Err(e);
          case Ok(None) => assert unacked[|base|..] == Deliveries(pending); return Ok(pending);
          case Ok(Some(get)) =>
            assert unacked == base + Deliveries(pending + [get]);
            pending := pending + [get];
        }
      }
      assert unacked[|base|..] == Deliveries(pending);
      r := Ok(pending);
    }

    /** Ack or requeue everything the loop took, in order; the first failure ends it. */
    method SettleAll(pending: seq<Delivery>, ack: bool, ghost base: seq<Delivery>) returns (ok: bool)
      requires Valid() && unacked == base + pending
      modifies this
      ensures Valid()
      ensures exists n: nat :: n <= |pending| && (ok ==> n == |pending|) && unacked == base + pending[n..]
                && (if ack then ready == old(ready)
                    else multiset(ready) == old(multiset(ready)) + multiset(Messages(pending[..n])))
    {
      for i := 0 to |pending|
        invariant Valid() && unacked == base + pending[i..]
        invariant if ack then ready == old(ready)
                  else multiset(ready) == old(multiset(ready)) + multiset(Messages(pending[..i]))
      {
        NextOut(base, pending, i);
        if ack { ok := Ack(pending[i]); } else { ok := NackRequeue(pending[i]); }
        if !ok { return false; }
      }
      assert pending[..|pending|] == pending;
      ok := true;
    }

    /**
     The whole operation. On success it returns the first `min(count, depth)` messages; a peek puts
     every one of them back and an ack removes exactly those. A failure loses nothing in a peek.
     */
    method OpConsume(request: Request) returns (r: Result<Response, Error>)
      requires Valid()
      modifies this
      ensures Valid()
      ensures request.queue.None? ==> r == Err(MissingQueue) && ready == old(ready) && unacked == old(unacked)
      ensures r.Ok? ==>
                var n := Min(if request.count.Some? then request.count.value else 10, |old(ready)|);
                && r.value.messages == old(ready[..n]) && r.value.messageCount == n
                && r.value.queueDepth == (if n == 0 then 0 else |old(ready)| - n)
                && unacked == old(unacked)
                && (if request.ack == Some(true) then ready == old(ready[n..])
                    else multiset(ready) == old(multiset(ready)))
      ensures r.Err? && request.ack != Some(true) ==>
                multiset(ready) + multiset(Messages(unacked)) == old(multiset(ready) + multiset(Messages(unacked)))
      ensures r.Err? && request.ack == Some(true) ==>
                PartlyAcked(old(ready), old(unacked), ready, unacked)
    {
      hide PartlyAcked, Messages;
      if request.queue.None? {
        LeftToAck(ready, unacked, [], 0, 0, ready, unacked);
        return Err(MissingQueue);
      }
      var count, ack := request.count.UnwrapOr(DEFAULT_COUNT), request.ack.UnwrapOr(false);
      ghost var was, base := ready, unacked;
      var drained := Drain(count);
      ghost var n := |unacked| - |base|;
      ghost var taken := unacked[|base|..];
      assert unacked == base + taken;
      if drained.Err? {
        LeftToAck(was, base, taken, 0, n, ready, unacked);
        Regained(was, n, base, taken);
        return Err(drained.error);
      }
      var pending := Deliveries(drained.value);
      ghost var left := ready;
      var ok := SettleAll(pending, ack, base);
      ghost var m: nat :| m <= |pending| && (ok ==> m == |pending|) && unacked == base + pending[m..]
        && (if ack then ready == left else multiset(ready) == multiset(left) + multiset(Messages(pending[..m])));
      if ack {
        LeftToAck(was, base, pending, m, n, ready, unacked);
      } else {
        PutBack(was, left, ready, base, pending, m, n);
      }
      if !ok { return Err(ChannelError); }
      assert pending[m..] == [];
      var depth := if drained.value == [] then 0 else drained.value[|drained.value| - 1].messageCount;
      r := Ok(Response(|drained.value|, depth, Messages(pending)));
    }
  }

  lemma NextOut(base: seq<Delivery>, pending: seq<Delivery>, i: nat)
    requires i < |pending| && DistinctTags(base + pending[i..])
    ensures pending[i] in base + pending[i..]
    ensures Without(base + pending[i..], pending[i].tag) == base + pending[i + 1..]
    ensures multiset(Messages(pending[..i + 1])) == multiset(Messages(pending[..i])) + multiset{pending[i].message}
  {
    var d := pending[i];
    var all := base + pending[i..];
    assert all[|base|] == d;
    forall k | 0 <= k < |base| ensures base[k].tag != d.tag {
      assert all[k] == base[k];
    }
    WithoutMiddle(base, d, pending[i + 1..]);
    assert all == base + [d] + pending[i + 1..];
    assert Messages(pending[..i + 1]) == Messages(pending[..i]) + [d.message];
  }

  lemma MessagesJoin(a: seq<Delivery>, b: seq<Delivery>)
    ensures Messages(a + b) == Messages(a) + Messages(b)
  {
  }

  lemma Regained(was: seq<Message>, n: nat, base: seq<Delivery>, taken: seq<Delivery>)
    requires n <= |was| && Messages(taken) == was[..n]
    ensures multiset(was[n..]) + multiset(Messages(base + taken)) == multiset(was) + multiset(Messages(base))
    ensures multiset(was[n..]) + multiset(Messages(taken)) == multiset(was)
  {
    MessagesJoin(base, taken);
    assert was == was[..n] + was[n..];
  }

  /** Of the first `n` messages the first `m` are settled and the rest are held, and `n..` still wait. */
  ghost predicate AckedUpTo(was: seq<Message>, m: nat, n: nat, base: seq<Delivery>, now: seq<Message>,
                            unacked: seq<Delivery>)
  {
    && m <= n <= |was| && now == was[n..]
    && |base| <= |unacked| && unacked[..|base|] == base && Messages(unacked[|base|..]) == was[m..n]
  }

  ghost predicate PartlyAcked(was: seq<Message>, base: seq<Delivery>, now: seq<Message>, unacked: seq<Delivery>) {
    exists m: nat, n: nat :: AckedUpTo(was, m, n, base, now, unacked)
  }

  lemma LeftToAck(was: seq<Message>, base: seq<Delivery>, pending: seq<Delivery>, m: nat, n: nat,
                  now: seq<Message>, unacked: seq<Delivery>)
    requires m <= |pending| && n <= |was| && Messages(pending) == was[..n] && now == was[n..]
    requires unacked == base + pending[m..]
    ensures PartlyAcked(was, base, now, unacked)
  {
    assert unacked[|base|..] == pending[m..];
    forall k | 0 <= k < n - m ensures Messages(pending[m..])[k] == was[m..n][k] {
      assert Messages(pending)[m + k] == was[..n][m + k];
    }
    assert AckedUpTo(was, m, n, base, now, unacked);
  }

  lemma PutBack(was: seq<Message>, left: seq<Message>, now: seq<Message>, base: seq<Delivery>,
                pending: seq<Delivery>, m: nat, n: nat)
    requires n <= |was| && left == was[n..] && Messages(pending) == was[..n] && m <= |pending|
    requires multiset(now) == multiset(left) + multiset(Messages(pending[..m]))
    ensures multiset(now) + multiset(Messages(base + pending[m..])) == multiset(was) + multiset(Messages(base))
    ensures m == |pending| ==> multiset(now) == multiset(was)
  {
    Regained(was, n, base, pending);
    MessagesJoin(base, pending[m..]);
    MessagesJoin(pending[..m], pending[m..]);
    assert pending == pending[..m] + pending[m..];
    if m == |pending| { assert pending[..m] == pending; }
  }

  function Deliveries(gets: seq<Get>): (ds: seq<Delivery>)
    ensures |ds| == |gets| && forall k :: 0 <= k < |gets| ==> ds[k] == gets[k].delivery
  {
    seq(|gets|, k requires 0 <= k < |gets| => gets[k].delivery)
  }

  lemma {:induction false} WithoutKeeps(ds: seq<Delivery>, tag: nat, bound: nat)
    requires DistinctTags(ds) && forall k :: 0 <= k < |ds| ==> ds[k].tag < bound
    ensures DistinctTags(Without(ds, tag))
    ensures forall k :: 0 <= k < |Without(ds, tag)| ==> Without(ds, tag)[k].tag < bound
    ensures forall d :: d in Without(ds, tag) ==> d in ds
  {
    if ds != [] && ds[0].tag != tag {
      WithoutKeeps(ds[1..], tag, bound);
      var rest := Without(ds[1..], tag);
      forall k | 0 <= k < |rest| ensures rest[k].tag != ds[0].tag {
        assert rest[k] in ds[1..];
      }
    }
  }
}
