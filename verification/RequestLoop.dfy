/**
 The request loop of the two SDKs, `request` in TypeScript and `_request` in
 Python: retries with backoff, and a key bought on the spot at a payment wall. The
 loops are the same but for the points that ask for the dialect.

 The server is any script of answers, by endpoint and by how many requests this
 client has sent so far. JSON documents are objects.
 */
module RequestLoop {
  import opened Options

  datatype Dialect = TypeScript | Python

  /** The endpoint asked for, or /v5/keys/instant. */
  datatype Endpoint = Asked | InstantKey

  datatype Document = Document(text: string, message: Option<string>, error: Option<string>, apiKey: Option<string>)

  datatype Body = Json(document: Document) | Garbled | Empty

  /** The Retry-After header, as the dialect's integer parser reads it. */
  datatype RetryAfter = Absent | Seconds(n: int) | Unreadable

  datatype Reply = NetworkError(what: string) | Response(status: nat, body: Body, retryAfter: RetryAfter)

  datatype Result =
    | Value(document: Document)
    | OracleError(message: Option<string>, status: nat, code: string)   // no message: HTTP and the status
    | NetworkFailure(what: string)
    | DecodeFailure           // the body is not JSON
    | BadWait                 // ValueError of int() or time.sleep()
    | NoAttempt               // the loop never ran

  /** What each endpoint would answer to the n-th request of the client; past the end there is no network. */
  datatype Server = Server(asked: seq<Reply>, keys: seq<Reply>)

  function Says(server: Server, ep: Endpoint, n: nat): Reply {
    var script := if ep.Asked? then server.asked else server.keys;
    if n < |script| then script[n] else NetworkError("unreachable")
  }

  predicate Success(r: Reply) {
    r.Response? && 200 <= r.status <= 299
  }

  /** A payment wall met without a key. The empty key counts as none. */
  predicate Walled(r: Reply, key: string) {
    r.Response? && r.status == 402 && key == ""
  }

  /** Python's int() and time.sleep() reject what TypeScript shrugs off. */
  predicate BadRetryAfter(d: Dialect, h: RetryAfter) {
    d.Python? && (h.Unreadable? || (h.Seconds? && h.n < 0))
  }

  /** The loop goes on after this reply, or gives up with it if it was the last attempt. */
  predicate Transient(d: Dialect, r: Reply, last: bool) {
    match r
    case NetworkError(_) => true
    case Response(status, body, h) =>
      status == 429 && !(!last && BadRetryAfter(d, h)) && !(d.Python? && body.Garbled?)
  }

  function Complaint(r: Reply): Result {
    match r
    case NetworkError(what) => NetworkFailure(what)
    case Response(_, _, _) => OracleError(Some("Rate limited"), 429, "RATE_LIMITED")
  }

  /** An answer that is not a success, or DecodeFailure where Python cannot read its body. */
  function Refusal(d: Dialect, status: nat, body: Body): Result {
    if d.Python? && body.Garbled? then DecodeFailure
    else if body.Json? then OracleError(body.document.message, status, body.document.error.GetOr("UNKNOWN"))
    else OracleError(None, status, "UNKNOWN")
  }

  /** What a reply that is neither transient nor a wall comes to. */
  function Settled(d: Dialect, r: Reply, last: bool): Result
    requires !Transient(d, r, last)
  {
    if r.status == 429 then (if !last && BadRetryAfter(d, r.retryAfter) then BadWait else DecodeFailure)
    else if !Success(r) then Refusal(d, r.status, r.body)
    else if r.body.Json? then Value(r.body.document)
    else DecodeFailure
  }

  function PaymentRequired(d: Dialect, wall: Reply): Result
    requires wall.Response?
  {
    if d.Python? && wall.body.Garbled? then DecodeFailure
    else OracleError(Some("Payment required"), 402, "PAYMENT_REQUIRED")
  }

  /** The key a successful answer of the key endpoint yields; Python's model insists on one. */
  function KeyFrom(d: Dialect, answer: Result): Option<string> {
    if !answer.Value? then None
    else if d.Python? then answer.document.apiKey
    else Some(answer.document.apiKey.GetOr(""))
  }

  /** What a wall comes to once a key was obtained and the request was sent again. */
  function Retried(d: Dialect, wall: Reply, again: Reply): Result
    requires wall.Response?
  {
    if again.NetworkError? then PaymentRequired(d, wall)
    else if !Success(again) then
      var refusal := Refusal(d, again.status, again.body);
      if refusal.OracleError? then refusal else PaymentRequired(d, wall)
    else if again.body.Json? then Value(again.body.document)
    else PaymentRequired(d, wall)
  }

  /** Milliseconds slept before attempt `k`, Retry-After aside. */
  function Backoff(d: Dialect, k: nat): nat
    requires k > 0
  {
    1000 * (if d.Python? && Pow2(k - 1) > 8 then 8 else Pow2(k - 1))
  }

  function Pow2(k: nat): nat {
    if k == 0 then 1 else 2 * Pow2(k - 1)
  }

  /** Milliseconds slept on a transient reply that is not the last; a timer takes a negative delay for none. */
  function RetryWait(d: Dialect, r: Reply): nat {
    if r.NetworkError? || r.retryAfter.Absent? then 0
    else if d.TypeScript? && (r.retryAfter.Unreadable? || r.retryAfter.n == 0) then 1000
    else if r.retryAfter.Seconds? && r.retryAfter.n >= 0 then r.retryAfter.n * 1000
    else 0
  }

  /** All that the loop sleeps before it sends the attempt numbered `k` from zero. */
  function SleptBefore(d: Dialect, server: Server, ep: Endpoint, at: nat, k: nat): nat {
    if k == 0 then 0
    else SleptBefore(d, server, ep, at, k - 1) + RetryWait(d, Says(server, ep, at + (k - 1))) + Backoff(d, k)
  }

  /** The same without the backoff of that attempt. */
  function SleptAfter(d: Dialect, server: Server, ep: Endpoint, at: nat, k: nat): int {
    SleptBefore(d, server, ep, at, k) - if k == 0 then 0 else Backoff(d, k)
  }

  // ----- the reference: the first reply that settles the matter -----

  /** The call of the key endpoint that a wall led to. */
  datatype KeyCall = KeyCall(answer: Result, attempts: nat)

  datatype Trace = Trace(result: Result, attempts: nat, sent: nat, key: string, keyCall: Option<KeyCall>)

  /** The reply to the attempt numbered `j` from zero does not settle the matter. */
  predicate TransientAt(d: Dialect, max: nat, server: Server, ep: Endpoint, at: nat, j: nat) {
    Transient(d, Says(server, ep, at + j), j == max)
  }

  /** `attempts` is that of the first reply that is not transient, or the last allowed. */
  predicate Decides(d: Dialect, max: nat, server: Server, ep: Endpoint, at: nat, attempts: nat) {
    && 1 <= attempts <= max + 1
    && (forall j: nat :: j < attempts - 1 ==> TransientAt(d, max, server, ep, at, j))
    && (TransientAt(d, max, server, ep, at, attempts - 1) ==> attempts - 1 == max)
  }

  /** The loop's answer when no wall comes into it. */
  function Verdict(d: Dialect, r: Reply, last: bool): Result {
    if Transient(d, r, last) then Complaint(r) else Settled(d, r, last)
  }

  /** The trace of a call settled without a wall. */
  function PlainTrace(d: Dialect, max: nat, server: Server, ep: Endpoint, at: nat, key: string, attempts: nat): Trace
    requires attempts >= 1
  {
    Trace(Verdict(d, Says(server, ep, at + attempts - 1), attempts - 1 == max), attempts, at + attempts, key, None)
  }

  /** The key endpoint, asked from the `at`-th request on, came to `kc`. */
  predicate Called(d: Dialect, max: nat, server: Server, at: nat, kc: KeyCall) {
    && Decides(d, max, server, InstantKey, at, kc.attempts)
    && kc.answer == Verdict(d, Says(server, InstantKey, at + kc.attempts - 1), kc.attempts - 1 == max)
  }

  /** The trace of a call that met `wall` after `attempts`, the key call then ending at `next`. */
  function WallTrace(d: Dialect, server: Server, ep: Endpoint, next: nat, wall: Reply, attempts: nat,
                     key: string, kc: KeyCall): Trace
    requires wall.Response?
  {
    var newKey := KeyFrom(d, kc.answer);
    if newKey == None then
      Trace(if kc.answer.OracleError? then kc.answer else PaymentRequired(d, wall), attempts, next, key, Some(kc))
    else
      Trace(Retried(d, wall, Says(server, ep, next)), attempts, next + 1, newKey.value, Some(kc))
  }

  /** A wall met at the `attempts`-th request since `at`, and what came of it. */
  predicate Walked(d: Dialect, max: nat, server: Server, ep: Endpoint, at: nat, key: string, wall: Reply,
                   attempts: nat, t: Trace)
    requires wall.Response?
  {
    && t.keyCall.Some?
    && Called(d, max, server, at + attempts, t.keyCall.value)
    && t == WallTrace(d, server, ep, at + attempts + t.keyCall.value.attempts, wall, attempts, key, t.keyCall.value)
  }

  predicate Ran(d: Dialect, max: int, server: Server, ep: Endpoint, at: nat, key: string, t: Trace) {
    if max < 0 then t == Trace(NoAttempt, 0, at, key, None)
    else
      && Decides(d, max, server, ep, at, t.attempts)
      && var reply := Says(server, ep, at + t.attempts - 1);
         if Walled(reply, key) then Walked(d, max, server, ep, at, key, reply, t.attempts, t)
         else t == PlainTrace(d, max, server, ep, at, key, t.attempts)
  }

  /** The key endpoint never puts up the wall itself; if it did, the code would nest without bound. */
  predicate KeysAreFree(server: Server) {
    forall r :: r in server.keys && r.Response? ==> r.status != 402
  }

  lemma KeyCallsArePlain(d: Dialect, max: nat, server: Server, at: nat, key: string, t: Trace)
    requires KeysAreFree(server) && Ran(d, max, server, InstantKey, at, key, t)
    ensures Called(d, max, server, at, KeyCall(t.result, t.attempts))
    ensures t.sent == at + t.attempts && t.key == key
  {
    assert !Walled(Says(server, InstantKey, at + t.attempts - 1), key);
  }

  /** What the loop does about a reply. */
  datatype Reaction = Again(error: Result, wait: int) | BuyKey | Return(result: Result)

  class Client {
    const dialect: Dialect
    const maxRetries: int
    var apiKey: string
    var sent: nat         // requests sent so far

    constructor (dialect: Dialect, apiKey: string, maxRetries: int)
      ensures this.dialect == dialect && this.maxRetries == maxRetries
      ensures this.apiKey == apiKey && sent == 0
    {
      this.dialect, this.maxRetries, this.apiKey, sent := dialect, maxRetries, apiKey, 0;
    }

    method Fetch(ep: Endpoint, server: Server) returns (r: Reply)
      modifies this`sent
      ensures r == Says(server, ep, old(sent)) && sent == old(sent) + 1
    {
      r := Says(server, ep, sent);
      sent := sent + 1;
    }

    /** The body of the loop once a reply is in. */
    method React(resp: Reply, last: bool) returns (next: Reaction)
      ensures next.Again? <==> Transient(dialect, resp, last)
      ensures next.Again? ==> next.error == Complaint(resp) && next.wait == if last then 0 else RetryWait(dialect, resp)
      ensures next.BuyKey? <==> Walled(resp, apiKey)
      ensures next.Return? ==> next.result == Settled(dialect, resp, last)
    {
      if resp.NetworkError? {
        return Again(NetworkFailure(resp.what), 0);
      }
      if resp.status == 429 {
        var wait := 0;
        if !resp.retryAfter.Absent? && !last {
          if BadRetryAfter(dialect, resp.retryAfter) {
            return Return(BadWait);
          }
          wait := RetryWait(dialect, resp);
        }
        if dialect.Python? && resp.body.Garbled? {
          return Return(DecodeFailure);
        }
        return Again(OracleError(Some("Rate limited"), 429, "RATE_LIMITED"), wait);
      }
      if resp.status == 402 && apiKey == "" {
        return BuyKey;
      }
      if !Success(resp) {
        return Return(Refusal(dialect, resp.status, resp.body));
      }
      if !resp.body.Json? {
        return Return(DecodeFailure);
      }
      next := Return(Value(resp.body.document));
    }

    /** The loop, up to the reply that settles the matter or the last attempt; `slept` is what came before that. */
    method Retry(ep: Endpoint, server: Server) returns (next: Reaction, resp: Reply, attempts: nat, slept: int)
      modifies this`sent
      ensures sent == old(sent) + attempts
      ensures maxRetries < 0 ==> attempts == 0 && next == Again(NoAttempt, 0)
      ensures maxRetries >= 0 ==> Decides(dialect, maxRetries, server, ep, old(sent), attempts)
      ensures maxRetries >= 0 ==>
                var last := attempts - 1 == maxRetries;
                && resp == Says(server, ep, old(sent) + attempts - 1)
                && (next.Again? <==> Transient(dialect, resp, last))
                && (next.Again? ==> next.error == Complaint(resp))
                && (next.BuyKey? <==> Walled(resp, apiKey))
                && (next.Return? ==> next.result == Settled(dialect, resp, last))
      ensures slept == if attempts == 0 then 0 else SleptBefore(dialect, server, ep, old(sent), attempts - 1)
    {
      ghost var at := sent;
      next, resp, attempts, slept := Again(NoAttempt, 0), NetworkError(""), 0, 0;
      var total := 0;
      while attempts <= maxRetries
        invariant maxRetries >= 0 ==> attempts <= maxRetries + 1
        invariant maxRetries < 0 ==> attempts == 0
        invariant sent == at + attempts
        invariant forall j: nat :: j < attempts ==> TransientAt(dialect, maxRetries, server, ep, at, j)
        invariant next.Again?
        invariant attempts > 0 ==> resp == Says(server, ep, at + attempts - 1)
        invariant next.error == if attempts == 0 then NoAttempt else Complaint(resp)
        invariant attempts == 0 ==> next.wait == 0
        invariant slept == if attempts == 0 then 0 else SleptBefore(dialect, server, ep, at, attempts - 1)
        invariant attempts <= maxRetries ==> total == SleptAfter(dialect, server, ep, at, attempts)
      {
        if attempts > 0 {
          total := total + Backoff(dialect, attempts);
        }
        slept := total;
        resp := Fetch(ep, server);
        next := React(resp, attempts == maxRetries);
        attempts := attempts + 1;
        if !next.Again? {
          return;
        }
        total := total + next.wait;
      }
      assert attempts > 0 ==> TransientAt(dialect, maxRetries, server, ep, at, attempts - 1);
    }

    /** `slept` is what this call slept before its last attempt. */
    method Request(ep: Endpoint, server: Server) returns (t: Trace, slept: int)
      requires KeysAreFree(server)
      modifies this`apiKey, this`sent
      ensures Ran(dialect, maxRetries, server, ep, old(sent), old(apiKey), t)
      ensures maxRetries < 0 ==> t == Trace(NoAttempt, 0, old(sent), old(apiKey), None) && slept == 0
      ensures sent == t.sent && apiKey == t.key
      ensures slept == if t.attempts == 0 then 0 else SleptBefore(dialect, server, ep, old(sent), t.attempts - 1)
      decreases if ep == Asked then 1 else 0
    {
      var next, resp, attempts;
      next, resp, attempts, slept := Retry(ep, server);
      match next {
        case Again(error, _) => t := Trace(error, attempts, sent, apiKey, None);
        case Return(result) => t := Trace(result, attempts, sent, apiKey, None);
        case BuyKey =>
          t := BuyKeyAndRetry(ep, server, resp, attempts);
      }
    }

    /** The branch of the loop that answers a 402 without a key. */
    method BuyKeyAndRetry(ep: Endpoint, server: Server, wall: Reply, attempts: nat)
        returns (t: Trace)
      requires KeysAreFree(server) && maxRetries >= 0 && ep == Asked
      requires wall.Response? && attempts <= sent
      modifies this`apiKey, this`sent
      ensures Walked(dialect, maxRetries, server, ep, old(sent) - attempts, old(apiKey), wall, attempts, t)
      ensures sent == t.sent && apiKey == t.key && t.attempts == attempts
      decreases if ep == Asked then 1 else 0, 0
    {
      var nested, _ := Request(InstantKey, server);
      KeyCallsArePlain(dialect, maxRetries, server, old(sent), old(apiKey), nested);
      var keyCall := Some(KeyCall(nested.result, nested.attempts));
      var newKey := KeyFrom(dialect, nested.result);
      if newKey == None {
        return Trace(if nested.result.OracleError? then nested.result else PaymentRequired(dialect, wall),
                     attempts, sent, apiKey, keyCall);
      }
      apiKey := newKey.value;
      var retry := Fetch(ep, server);
      if retry.NetworkError? {
        return Trace(PaymentRequired(dialect, wall), attempts, sent, apiKey, keyCall);
      }
      if !Success(retry) {
        var refusal := Refusal(dialect, retry.status, retry.body);
        return Trace(if refusal.OracleError? then refusal else PaymentRequired(dialect, wall),
                     attempts, sent, apiKey, keyCall);
      }
      if !retry.body.Json? {
        return Trace(PaymentRequired(dialect, wall), attempts, sent, apiKey, keyCall);
      }
      t := Trace(Value(retry.body.document), attempts, sent, apiKey, keyCall);
    }
  }

  lemma DecidesOnce(d: Dialect, max: nat, server: Server, ep: Endpoint, at: nat, m: nat, n: nat)
    requires Decides(d, max, server, ep, at, m) && Decides(d, max, server, ep, at, n)
    ensures m == n
  {
  }

  /** The reference leaves nothing open: for every server there is at most one trace. */
  lemma RanIsDeterministic(d: Dialect, max: int, server: Server, ep: Endpoint, at: nat, key: string,
                           t: Trace, t': Trace)
    requires Ran(d, max, server, ep, at, key, t) && Ran(d, max, server, ep, at, key, t')
    ensures t == t'
  {
    if max >= 0 {
      DecidesOnce(d, max, server, ep, at, t.attempts, t'.attempts);
      if Walled(Says(server, ep, at + t.attempts - 1), key) {
        DecidesOnce(d, max, server, InstantKey, at + t.attempts, t.keyCall.value.attempts, t'.keyCall.value.attempts);
      }
    }
  }

  /** Main result: a call ends within 2 * maxRetries + 3 requests, maxRetries + 1 when a key is set. */
  lemma RequestsAreBounded(d: Dialect, max: nat, server: Server, ep: Endpoint, at: nat, key: string, t: Trace)
    requires Ran(d, max, server, ep, at, key, t)
    ensures t.sent - at <= if key == "" then 2 * max + 3 else max + 1
  {
  }

  /** The stored key changes only at a wall met without one, and then only for the key just bought. */
  lemma KeyChangesOnlyAtTheWall(d: Dialect, max: int, server: Server, ep: Endpoint, at: nat, key: string, t: Trace)
    requires Ran(d, max, server, ep, at, key, t) && t.key != key
    ensures key == "" && t.keyCall.Some? && t.keyCall.value.answer.Value?
    ensures t.keyCall.value.answer.document.apiKey == Some(t.key)
    ensures Walled(Says(server, ep, at + t.attempts - 1), key)
  {
  }

  /** A value is always a document that the server sent with a 2xx status as the last request of the call. */
  lemma ValuesComeFromTheServer(d: Dialect, max: int, server: Server, ep: Endpoint, at: nat, key: string, t: Trace)
    requires Ran(d, max, server, ep, at, key, t) && t.result.Value?
    ensures t.sent > at
    ensures Success(Says(server, ep, t.sent - 1)) && Says(server, ep, t.sent - 1).body == Json(t.result.document)
  {
  }

  function TotalBackoff(d: Dialect, k: nat): nat {
    if k == 0 then 0 else TotalBackoff(d, k - 1) + Backoff(d, k)
  }

  /** Main result: the backoff before attempt `k` totals 2^k - 1 seconds; Python's cap makes it linear after 4. */
  lemma {:induction false} BackoffTotals(k: nat)
    ensures TotalBackoff(TypeScript, k) == 1000 * (Pow2(k) - 1)
    ensures TotalBackoff(Python, k) == 1000 * if k <= 4 then Pow2(k) - 1 else 15 + 8 * (k - 4)
    ensures k >= 4 ==> Pow2(k) >= 16
  {
    if k == 0 {
    } else {
      BackoffTotals(k - 1);
      if k <= 4 {
        PowersOfTwo();
      }
    }
  }

  lemma PowersOfTwo()
    ensures Pow2(0) == 1 && Pow2(1) == 2 && Pow2(2) == 4 && Pow2(3) == 8 && Pow2(4) == 16
  {
    assert Pow2(2) == 2 * Pow2(1);
    assert Pow2(3) == 2 * Pow2(2);
    assert Pow2(4) == 2 * Pow2(3);
  }

  /** With no Retry-After in play the sleeps of the loop are the backoff alone. */
  lemma {:induction false} SleptIsBackoff(d: Dialect, server: Server, ep: Endpoint, at: nat, k: nat)
    requires forall r :: r in server.asked + server.keys && r.Response? ==> r.retryAfter.Absent?
    ensures SleptBefore(d, server, ep, at, k) == TotalBackoff(d, k)
  {
    if k == 0 {
    } else {
      SleptIsBackoff(d, server, ep, at, k - 1);
    }
  }

  // ----- what a script of answers comes to -----

  /** A reply that the loop rides out: no network, or a 429 whose header and body the dialect can read. */
  predicate RidesOut(d: Dialect, r: Reply) {
    match r
    case NetworkError(_) => true
    case Response(status, body, h) =>
      status == 429 && (d == TypeScript || ((h == Absent || (h.Seconds? && 0 <= h.n)) && body != Garbled))
  }

  predicate RidesOutAt(d: Dialect, server: Server, ep: Endpoint, at: nat, j: nat) {
    RidesOut(d, Says(server, ep, at + j))
  }

  /** The first `k` replies are of that kind. */
  predicate RidesOutFirst(d: Dialect, server: Server, ep: Endpoint, at: nat, k: nat) {
    forall j: nat :: j < k ==> RidesOutAt(d, server, ep, at, j)
  }

  predicate NoNetworkAt(server: Server, ep: Endpoint, at: nat, j: nat) {
    Says(server, ep, at + j).NetworkError?
  }

  predicate NoNetworkFirst(server: Server, ep: Endpoint, at: nat, k: nat) {
    forall j: nat :: j < k ==> NoNetworkAt(server, ep, at, j)
  }

  lemma NoNetworkIsRiddenOut(d: Dialect, server: Server, ep: Endpoint, at: nat, k: nat)
    requires NoNetworkFirst(server, ep, at, k)
    ensures RidesOutFirst(d, server, ep, at, k)
  {
    forall j: nat | j < k
      ensures RidesOutAt(d, server, ep, at, j)
    {
      assert NoNetworkAt(server, ep, at, j);
    }
  }

  lemma RodeOut(d: Dialect, max: nat, server: Server, ep: Endpoint, at: nat, k: nat, attempts: nat)
    requires Decides(d, max, server, ep, at, attempts)
    requires k <= max && RidesOutFirst(d, server, ep, at, k)
    ensures attempts >= k + 1
    ensures !TransientAt(d, max, server, ep, at, k) ==> attempts == k + 1
  {
    assert attempts - 1 < k ==> RidesOutAt(d, server, ep, at, attempts - 1);
  }

  /**
   Main result: after any number of network errors and 429s, as many as the retries
   allow, the next reply settles the call: a 2xx with a document is its value, and any
   other status but 429 and an unpaid 402 is its error, at once.
   */
  lemma AnswersAfterRetries(d: Dialect, max: nat, server: Server, ep: Endpoint, at: nat, key: string, t: Trace,
                            k: nat, status: nat, body: Body, h: RetryAfter)
    requires Ran(d, max, server, ep, at, key, t)
    requires k <= max && RidesOutFirst(d, server, ep, at, k)
    requires Says(server, ep, at + k) == Response(status, body, h)
    requires status != 429 && (status == 402 ==> key != "")
    ensures t.attempts == k + 1 && t.sent == at + k + 1 && t.key == key && t.keyCall == None
    ensures 200 <= status <= 299 ==> t.result == if body.Json? then Value(body.document) else DecodeFailure
    ensures !(200 <= status <= 299) ==>
              t.result == match body
                          case Json(doc) => OracleError(doc.message, status, doc.error.GetOr("UNKNOWN"))
                          case Garbled => if d == Python then DecodeFailure else OracleError(None, status, "UNKNOWN")
                          case Empty => OracleError(None, status, "UNKNOWN")
  {
    RodeOut(d, max, server, ep, at, k, t.attempts);
  }

  /** When all the attempts are ridden out the call fails with what the last one met. */
  lemma FailsWithTheLastError(d: Dialect, max: nat, server: Server, ep: Endpoint, at: nat, key: string, t: Trace)
    requires Ran(d, max, server, ep, at, key, t)
    requires RidesOutFirst(d, server, ep, at, max + 1)
    ensures t.attempts == max + 1 && t.sent == at + max + 1 && t.key == key && t.keyCall == None
    ensures t.result == match Says(server, ep, at + max)
                        case NetworkError(what) => NetworkFailure(what)
                        case Response(_, _, _) => OracleError(Some("Rate limited"), 429, "RATE_LIMITED")
  {
    assert RidesOutAt(d, server, ep, at, max);
    RodeOut(d, max, server, ep, at, max, t.attempts);
  }

  /** Python stops at a 429 whose Retry-After it cannot sleep for, or whose body it cannot read. */
  lemma PythonStopsAtABadRetry(max: nat, server: Server, ep: Endpoint, at: nat, key: string, t: Trace,
                               k: nat, body: Body, h: RetryAfter)
    requires Ran(Python, max, server, ep, at, key, t)
    requires k <= max && RidesOutFirst(Python, server, ep, at, k)
    requires Says(server, ep, at + k) == Response(429, body, h)
    ensures k < max && (h == Unreadable || (h.Seconds? && h.n < 0)) ==> t.attempts == k + 1 && t.result == BadWait
    ensures (k == max || h == Absent || (h.Seconds? && h.n >= 0)) && body == Garbled ==>
              t.attempts == k + 1 && t.result == DecodeFailure
  {
    RodeOut(Python, max, server, ep, at, k, t.attempts);
  }

  /**
   Main result on the payment wall: a 402 without a key, an answer of the key endpoint
   with a key in it, and the request sent again with that key.
   */
  lemma BuysAKeyAtTheWall(d: Dialect, max: nat, server: Server, at: nat, t: Trace,
                          k: nat, wall: Reply, n: nat, bought: Reply, newKey: string)
    requires Ran(d, max, server, Asked, at, "", t)
    requires k <= max && RidesOutFirst(d, server, Asked, at, k)
    requires wall == Says(server, Asked, at + k) && wall.Response? && wall.status == 402
    requires n <= max && RidesOutFirst(d, server, InstantKey, at + k + 1, n)
    requires bought == Says(server, InstantKey, at + k + 1 + n) && bought.Response? && 200 <= bought.status <= 299
    requires bought.body.Json? && bought.body.document.apiKey == Some(newKey)
    ensures t.attempts == k + 1 && t.sent == at + k + n + 3 && t.key == newKey
    ensures var again := Says(server, Asked, at + k + n + 2);
            var unpaid := if d == Python && wall.body == Garbled then DecodeFailure
                          else OracleError(Some("Payment required"), 402, "PAYMENT_REQUIRED");
            && (again.NetworkError? ==> t.result == unpaid)
            && (again.Response? && 200 <= again.status <= 299 ==>
                t.result == if again.body.Json? then Value(again.body.document) else unpaid)
            && (again.Response? && !(200 <= again.status <= 299) && again.body.Json? ==>
                t.result == OracleError(again.body.document.message, again.status,
                                        again.body.document.error.GetOr("UNKNOWN")))
  {
    RodeOut(d, max, server, Asked, at, k, t.attempts);
    RodeOut(d, max, server, InstantKey, at + k + 1, n, t.keyCall.value.attempts);
  }

  /** A key endpoint that refuses passes its error on, and one that cannot be reached leaves the 402. */
  lemma FailsAtTheWall(d: Dialect, max: nat, server: Server, at: nat, t: Trace, k: nat, wall: Reply)
    requires Ran(d, max, server, Asked, at, "", t)
    requires k <= max && RidesOutFirst(d, server, Asked, at, k)
    requires wall == Says(server, Asked, at + k) && wall.Response? && wall.status == 402
    requires var refused := Says(server, InstantKey, at + k + 1);
             || (refused.Response? && refused.status >= 300 && refused.status !in {402, 429} && refused.body != Garbled)
             || NoNetworkFirst(server, InstantKey, at + k + 1, max + 1)
    ensures t.key == ""
    ensures var refused := Says(server, InstantKey, at + k + 1);
            t.result == if refused.Response? then
                          (match refused.body
                           case Json(doc) => OracleError(doc.message, refused.status, doc.error.GetOr("UNKNOWN"))
                           case _ => OracleError(None, refused.status, "UNKNOWN"))
                        else if d == Python && wall.body == Garbled then DecodeFailure
                        else OracleError(Some("Payment required"), 402, "PAYMENT_REQUIRED")
  {
    RodeOut(d, max, server, Asked, at, k, t.attempts);
    var refused := Says(server, InstantKey, at + k + 1);
    assert NoNetworkAt(server, InstantKey, at + k + 1, 0) <==> refused.NetworkError?;
    if refused.Response? {
      RodeOut(d, max, server, InstantKey, at + k + 1, 0, t.keyCall.value.attempts);
    } else {
      assert NoNetworkAt(server, InstantKey, at + k + 1, max);
      NoNetworkIsRiddenOut(d, server, InstantKey, at + k + 1, max + 1);
      RodeOut(d, max, server, InstantKey, at + k + 1, max, t.keyCall.value.attempts);
    }
  }

  /**
   An answer of the key endpoint that is good but has no key in it: Python leaves the
   402, and TypeScript sends the request again without one.
   */
  lemma NoKeyInTheAnswer(d: Dialect, max: nat, server: Server, at: nat, t: Trace, k: nat, wall: Reply, bought: Reply)
    requires Ran(d, max, server, Asked, at, "", t)
    requires k <= max && RidesOutFirst(d, server, Asked, at, k)
    requires wall == Says(server, Asked, at + k) && wall.Response? && wall.status == 402 && wall.body != Garbled
    requires bought == Says(server, InstantKey, at + k + 1) && bought.Response? && 200 <= bought.status <= 299
    requires bought.body.Json? ==> bought.body.document.apiKey == None
    ensures t.key == ""
    ensures bought.body.Json? && d == TypeScript ==>
              t.sent == at + k + 3
              && (Says(server, Asked, at + k + 2).NetworkError? ==>
                  t.result == OracleError(Some("Payment required"), 402, "PAYMENT_REQUIRED"))
    ensures !bought.body.Json? || d == Python ==>
              t.sent == at + k + 2 && t.result == OracleError(Some("Payment required"), 402, "PAYMENT_REQUIRED")
  {
    RodeOut(d, max, server, Asked, at, k, t.attempts);
    RodeOut(d, max, server, InstantKey, at + k + 1, 0, t.keyCall.value.attempts);
  }

  function Sum(ms: seq<nat>): nat {
    if ms == [] then 0 else Sum(ms[..|ms| - 1]) + ms[|ms| - 1]
  }

  /** Milliseconds that a reply asks for: 1000 a second, and in TypeScript 1000 where that is none or unreadable. */
  predicate AsksFor(d: Dialect, r: Reply, ms: nat) {
    match r
    case NetworkError(_) => ms == 0
    case Response(_, _, h) =>
      match h
      case Absent => ms == 0
      case Seconds(n) => if n > 0 then ms == 1000 * n else if n == 0 && d == TypeScript then ms == 1000 else ms == 0
      case Unreadable => ms == if d == TypeScript then 1000 else 0
  }

  /** Main result on the sleeps: before attempt `k` they total the backoff and what the replies before it asked for. */
  lemma {:induction false} SleepsAddUp(d: Dialect, server: Server, ep: Endpoint, at: nat, ms: seq<nat>)
    requires forall j: nat :: j < |ms| ==> AsksFor(d, Says(server, ep, at + j), ms[j])
    ensures SleptBefore(d, server, ep, at, |ms|) == TotalBackoff(d, |ms|) + Sum(ms)
  {
    if ms == [] {
    } else {
      var k := |ms| - 1;
      SleepsAddUp(d, server, ep, at, ms[..k]);
      assert AsksFor(d, Says(server, ep, at + k), ms[k]);
    }
  }
}
