/**
 * The UDP confirmation protocol of one logical send: the same datagram is
 * sent up to `RetransmissionCount + 1` times; after each successful send one
 * Confirm is taken from the user's confirmation queue, and the send succeeds
 * as soon as a taken Confirm carries the awaited ID. Timing is abstracted
 * into an oracle that says, per attempt, whether the socket send fails and
 * which Confirms arrive before the wait ends.
 */
module Reliability {
  import opened Wrappers
  import opened ChatProtocol

  /** What the network and the peer do during one attempt. */
  datatype Attempt = Attempt(sendFails: bool, arrivals: seq<Option<uint16>>)

  /**
   * The outcome of the attempts from some point on: whether a matching
   * Confirm was taken, how many datagrams went out, the Confirm IDs taken
   * from the queue in order, and the queue left behind.
   */
  datatype Run = Run(confirmed: bool, sends: nat, taken: seq<Option<uint16>>, remaining: seq<Option<uint16>>)

  /** One more datagram sent, and `taken` (if any) consumed, before `r`. */
  function Before(taken: seq<Option<uint16>>, r: Run): Run
  {
    r.(sends := r.sends + 1, taken := taken + r.taken)
  }

  /**
   * The loop from attempt `attempts` on, with `confirms` queued. A destination
   * that is not an IP end point ends the loop before any send.
   */
  function RunFrom(isIp: bool, id: Option<uint16>, confirms: seq<Option<uint16>>, net: seq<Attempt>,
                   retransmissionCount: nat, attempts: nat): Run
    requires |net| > retransmissionCount
    decreases retransmissionCount + 1 - attempts
  {
    if attempts > retransmissionCount || !isIp then Run(false, 0, [], confirms)
    else
      var queue := confirms + net[attempts].arrivals;
      if net[attempts].sendFails then RunFrom(isIp, id, queue, net, retransmissionCount, attempts + 1)
      else if queue == [] then Before([], RunFrom(isIp, id, queue, net, retransmissionCount, attempts + 1))
      else if queue[0] == id then Run(true, 1, [queue[0]], queue[1..])
      else Before([queue[0]], RunFrom(isIp, id, queue[1..], net, retransmissionCount, attempts + 1))
  }

  // ------------------------------------------------------------ properties

  /** At most one datagram per remaining attempt, and at most one Confirm taken per datagram. */
  lemma {:induction false} SendsBounded(isIp: bool, id: Option<uint16>, confirms: seq<Option<uint16>>, net: seq<Attempt>,
                                        retransmissionCount: nat, attempts: nat)
    requires |net| > retransmissionCount && attempts <= retransmissionCount + 1
    ensures var r := RunFrom(isIp, id, confirms, net, retransmissionCount, attempts);
            |r.taken| <= r.sends <= retransmissionCount + 1 - attempts
    decreases retransmissionCount + 1 - attempts
  {
    if attempts <= retransmissionCount && isIp {
      var queue := confirms + net[attempts].arrivals;
      if net[attempts].sendFails || queue == [] {
        SendsBounded(isIp, id, queue, net, retransmissionCount, attempts + 1);
      } else if queue[0] != id {
        SendsBounded(isIp, id, queue[1..], net, retransmissionCount, attempts + 1);
      }
    }
  }

  /**
   * The send is confirmed exactly when the last Confirm taken carries the
   * awaited ID; every earlier one taken was a mismatch, consumed and counted
   * as a failed attempt.
   */
  lemma {:induction false} ConfirmedByMatch(isIp: bool, id: Option<uint16>, confirms: seq<Option<uint16>>, net: seq<Attempt>,
                                            retransmissionCount: nat, attempts: nat)
    requires |net| > retransmissionCount
    ensures var r := RunFrom(isIp, id, confirms, net, retransmissionCount, attempts);
            (r.confirmed <==> r.taken != [] && r.taken[|r.taken| - 1] == id) &&
            forall i :: 0 <= i < |r.taken| - 1 ==> r.taken[i] != id
    decreases retransmissionCount + 1 - attempts
  {
    if attempts <= retransmissionCount && isIp {
      var queue := confirms + net[attempts].arrivals;
      if net[attempts].sendFails || queue == [] {
        ConfirmedByMatch(isIp, id, queue, net, retransmissionCount, attempts + 1);
      } else if queue[0] != id {
        var rest := RunFrom(isIp, id, queue[1..], net, retransmissionCount, attempts + 1);
        ConfirmedByMatch(isIp, id, queue[1..], net, retransmissionCount, attempts + 1);
        assert RunFrom(isIp, id, confirms, net, retransmissionCount, attempts).taken == [queue[0]] + rest.taken;
      }
    }
  }

  /**
   * Confirms are only ever taken from the front of the queue, never lost or
   * reordered: the Confirms queued at the start lead the ones taken followed
   * by the ones left.
   */
  lemma {:induction false} ConfirmsConserved(isIp: bool, id: Option<uint16>, confirms: seq<Option<uint16>>, net: seq<Attempt>,
                                             retransmissionCount: nat, attempts: nat)
    requires |net| > retransmissionCount
    ensures var r := RunFrom(isIp, id, confirms, net, retransmissionCount, attempts);
            confirms <= r.taken + r.remaining
    decreases retransmissionCount + 1 - attempts
  {
    var r := RunFrom(isIp, id, confirms, net, retransmissionCount, attempts);
    if attempts > retransmissionCount || !isIp {
      assert r.taken + r.remaining == confirms;
    } else {
      var arrivals := net[attempts].arrivals;
      var queue := confirms + arrivals;
      PrefixOfJoin(confirms, arrivals);
      if net[attempts].sendFails || queue == [] {
        var rest := RunFrom(isIp, id, queue, net, retransmissionCount, attempts + 1);
        assert r.taken + r.remaining == rest.taken + rest.remaining;
        ConfirmsConserved(isIp, id, queue, net, retransmissionCount, attempts + 1);
        PrefixTrans(confirms, queue, r.taken + r.remaining);
      } else if queue[0] == id {
        assert r.taken + r.remaining == [queue[0]] + queue[1..] == queue;
      } else {
        var rest := RunFrom(isIp, id, queue[1..], net, retransmissionCount, attempts + 1);
        assert r.taken + r.remaining == [queue[0]] + (rest.taken + rest.remaining);
        ConfirmsConserved(isIp, id, queue[1..], net, retransmissionCount, attempts + 1);
        PrefixCons(queue[0], queue[1..], rest.taken + rest.remaining);
        assert [queue[0]] + queue[1..] == queue;
        PrefixTrans(confirms, queue, r.taken + r.remaining);
      }
    }
  }

  lemma PrefixOfJoin<T>(a: seq<T>, b: seq<T>)
    ensures a <= a + b
  {
    assert (a + b)[..|a|] == a;
  }

  lemma PrefixTrans<T>(a: seq<T>, b: seq<T>, c: seq<T>)
    requires a <= b && b <= c
    ensures a <= c
  {
    assert c[..|a|] == c[..|b|][..|a|];
  }

  lemma PrefixCons<T>(x: T, a: seq<T>, b: seq<T>)
    requires a <= b
    ensures [x] + a <= [x] + b
  {
    assert ([x] + b)[..|a| + 1] == [x] + b[..|a|];
  }

  /** A destination that is not an IP end point gets nothing and the send fails. */
  lemma NotIpSendsNothing(id: Option<uint16>, confirms: seq<Option<uint16>>, net: seq<Attempt>, retransmissionCount: nat, attempts: nat)
    requires |net| > retransmissionCount
    ensures RunFrom(false, id, confirms, net, retransmissionCount, attempts) == Run(false, 0, [], confirms)
  {
  }

  /** No Confirm in `confirms` carries `id`. */
  predicate NoMatch(confirms: seq<Option<uint16>>, id: Option<uint16>)
  {
    forall i :: 0 <= i < |confirms| ==> confirms[i] != id
  }

  /**
   * When every send goes out but no matching Confirm ever arrives, all
   * `RetransmissionCount + 1` attempts are spent, each sending the datagram,
   * and the send fails.
   */
  lemma {:induction false} Exhausted(id: Option<uint16>, confirms: seq<Option<uint16>>, net: seq<Attempt>,
                                     retransmissionCount: nat, attempts: nat)
    requires |net| > retransmissionCount && attempts <= retransmissionCount + 1
    requires NoMatch(confirms, id)
    requires forall a :: attempts <= a <= retransmissionCount ==> !net[a].sendFails && NoMatch(net[a].arrivals, id)
    ensures var r := RunFrom(true, id, confirms, net, retransmissionCount, attempts);
            !r.confirmed && r.sends == retransmissionCount + 1 - attempts
    decreases retransmissionCount + 1 - attempts
  {
    if attempts <= retransmissionCount {
      var queue := confirms + net[attempts].arrivals;
      assert NoMatch(queue, id) by {
        forall i | 0 <= i < |queue|
          ensures queue[i] != id
        {
          if i >= |confirms| {
            assert queue[i] == net[attempts].arrivals[i - |confirms|];
          }
        }
      }
      if queue == [] {
        Exhausted(id, queue, net, retransmissionCount, attempts + 1);
      } else {
        assert queue[0] != id;
        Exhausted(id, queue[1..], net, retransmissionCount, attempts + 1);
      }
    }
  }

  /** A matching Confirm already waiting confirms the first successful send at once. */
  lemma ConfirmWaiting(id: Option<uint16>, confirms: seq<Option<uint16>>, net: seq<Attempt>, retransmissionCount: nat)
    requires |net| > retransmissionCount
    requires confirms != [] && confirms[0] == id && !net[0].sendFails
    ensures RunFrom(true, id, confirms, net, retransmissionCount, 0) == Run(true, 1, [id], confirms[1..] + net[0].arrivals)
  {
    var queue := confirms + net[0].arrivals;
    assert queue[0] == id;
    assert queue[1..] == confirms[1..] + net[0].arrivals;
  }
}
