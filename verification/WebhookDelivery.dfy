/** `deliverWebhook`: one POST and at most three retries. */
module WebhookDelivery {
  import opened Options

  datatype Target = Target(id: string, keyHash: string, url: string, secret: string)

  /** What a POST comes to: an answer, or an exception thrown by fetch. */
  datatype Reply = Response(status: int) | Threw(message: string)

  predicate Accepted(r: Reply) {
    r.Response? && 200 <= r.status <= 299
  }

  datatype Delivery = Delivery(ok: bool, status: Option<int>, error: Option<string>)

  const DELAYS: seq<nat> := [0, 1000, 4000, 16000]

  function Total(delays: seq<nat>): nat {
    if delays == [] then 0 else Total(delays[..|delays| - 1]) + delays[|delays| - 1]
  }

  /**
   `replies` are what the endpoint would say to each attempt. Some attempt is
   always decisive: the first one accepted, or else the last.
   */
  method DeliverWebhook(replies: seq<Reply>) returns (result: Delivery, attempts: nat, waited: nat)
    requires |replies| == |DELAYS|
    ensures 1 <= attempts <= 4
    ensures match replies[attempts - 1]
            case Response(status) => result == Delivery(200 <= status <= 299, Some(status), None)
            case Threw(message) => result == Delivery(false, None, Some(message))
    ensures result.ok <==> exists i :: 0 <= i < 4 && Accepted(replies[i])
    ensures forall i :: 0 <= i < attempts - 1 ==> !Accepted(replies[i])
    ensures !result.ok ==> attempts == 4
    ensures waited == Total(DELAYS[..attempts])
  {
    waited := 0;
    var i := 0;
    while i < |DELAYS|
      invariant 0 <= i < |DELAYS|
      invariant forall j :: 0 <= j < i ==> !Accepted(replies[j])
      invariant waited == Total(DELAYS[..i])
    {
      assert DELAYS[..i + 1][..i] == DELAYS[..i];
      if DELAYS[i] > 0 {
        waited := waited + DELAYS[i];
      }
      attempts := i + 1;
      var reply := replies[i];
      match reply {
        case Response(status) =>
          if 200 <= status <= 299 {
            return Delivery(true, Some(status), None), attempts, waited;
          }
          if i == |DELAYS| - 1 {
            return Delivery(false, Some(status), None), attempts, waited;
          }
        case Threw(message) =>
          if i == |DELAYS| - 1 {
            return Delivery(false, None, Some(message)), attempts, waited;
          }
      }
      i := i + 1;
    }
    // the `exhausted` return that follows the loop is never reached
    assert false;
  }

  /** Before giving up a delivery has waited 21 seconds, and it never waits longer. */
  lemma {:induction false} WaitsOfADelivery(attempts: nat)
    requires 1 <= attempts <= 4
    ensures Total(DELAYS[..attempts]) == [0, 1000, 5000, 21000][attempts - 1]
  {
    assert DELAYS[..1] == [0] && DELAYS[..2] == [0, 1000];
    assert DELAYS[..3] == [0, 1000, 4000] && DELAYS[..4] == [0, 1000, 4000, 16000];
    assert [0, 1000][..1] == [0] && [0, 1000, 4000][..2] == [0, 1000];
    assert [0, 1000, 4000, 16000][..3] == [0, 1000, 4000];
  }
}
