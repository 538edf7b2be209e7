/**
 The metering gate in front of /v5/status (patch_x402scan.py): a request is served
 on a plan's daily quota, a credit, a payment, or a plan without a meter, or it is
 refused. Requests are atomic; one run is one day.
 */
module StatusGate {
  import opened Options

  const FREE_TIER_DAILY_LIMIT := 500
  const BUILDER_TIER_DAILY_LIMIT := 50_000
  const PRO_TIER_DAILY_LIMIT := 200_000

  datatype Plan = Free | Builder | Pro | OtherPlan(name: string)

  /** What `checkApiKey` says of a key; `keyHash` may be missing, and is then computed from the key. */
  datatype Auth = Auth(allowed: bool, status: int, plan: Plan, keyHash: Option<string>)

  /** The X-Payment header, and whether `verifyX402Payment` would accept what it holds. */
  datatype Payment = NoPayment | NotJson | Payment(valid: bool)

  datatype Request =
    | Keyed(auth: Auth, hash: string, payment: Payment)
    | Keyless(payment: Payment)

  datatype Refusal =
    | NotAllowed(status: int)
    | InvalidPayment           // 402
    | VerificationFailed       // 402
    | PaymentNeeded            // 402
    | RateLimited              // 429
    | KeyRequired              // 401

  datatype Decision =
    | OnQuota(key: string)
    | OnCredit(key: string)
    | OnPayment
    | Unmetered
    | Refused(why: Refusal)

  datatype Books = Books(usage: map<string, nat>, credits: map<string, int>)

  function Count(m: map<string, nat>, key: string): nat {
    if key in m then m[key] else 0
  }

  function Balance(m: map<string, int>, key: string): int {
    if key in m then m[key] else 0
  }

  function KeyOf(r: Request): string
    requires r.Keyed?
  {
    r.auth.keyHash.GetOr(r.hash)
  }

  function DailyLimit(p: Plan): Option<nat> {
    match p
    case Free => Some(FREE_TIER_DAILY_LIMIT)
    case Builder => Some(BUILDER_TIER_DAILY_LIMIT)
    case Pro => Some(PRO_TIER_DAILY_LIMIT)
    case OtherPlan(_) => None
  }

  /** A payment header counts only where the service has an address to be paid at. */
  function ByPayment(p: Payment, refusal: Refusal): Decision
    requires !p.NoPayment?
  {
    if p.NotJson? then Refused(InvalidPayment)
    else if p.valid then OnPayment
    else Refused(refusal)
  }

  function Decide(b: Books, r: Request, payable: bool): Decision {
    if r.Keyless? then
      if !r.payment.NoPayment? && payable then ByPayment(r.payment, PaymentNeeded)
      else Refused(if payable then PaymentNeeded else KeyRequired)
    else if !r.auth.allowed then Refused(NotAllowed(r.auth.status))
    else
      var key, limit := KeyOf(r), DailyLimit(r.auth.plan);
      if limit == None then Unmetered
      else if Count(b.usage, key) < limit.value then OnQuota(key)
      else if !r.auth.plan.Free? then Refused(RateLimited)
      else if !r.payment.NoPayment? && payable then ByPayment(r.payment, VerificationFailed)
      else if Balance(b.credits, key) > 0 then OnCredit(key)
      else Refused(if payable then PaymentNeeded else RateLimited)
  }

  function Booked(b: Books, d: Decision): Books {
    match d
    case OnQuota(key) => b.(usage := b.usage[key := Count(b.usage, key) + 1])
    case OnCredit(key) => b.(credits := b.credits[key := Balance(b.credits, key) - 1])
    case _ => b
  }

  class Gate {
    var usage: map<string, nat>
    var credits: map<string, int>

    ghost function Value(): Books
      reads this
    {
      Books(usage, credits)
    }

    constructor (usage: map<string, nat>, credits: map<string, int>)
      ensures Value() == Books(usage, credits)
    {
      this.usage, this.credits := usage, credits;
    }

    method ConsumeCredit(key: string)
      modifies this`credits
      ensures var had := Balance(old(credits), key);
              credits == old(credits)[key := if had > 0 then had - 1 else 0]
    {
      var left := Balance(credits, key) - 1;
      credits := credits[key := if left > 0 then left else 0];
    }

    method IncrementDailyUsage(key: string, current: nat)
      modifies this`usage
      ensures usage == old(usage)[key := current + 1]
    {
      usage := usage[key := current + 1];
    }

    method Handle(r: Request, payable: bool) returns (d: Decision)
      modifies this
      ensures d == Decide(old(Value()), r, payable)
      ensures Value() == Booked(old(Value()), d)
    {
      match r {
        case Keyed(auth, hash, payment) =>
          if !auth.allowed {
            return Refused(NotAllowed(auth.status));
          }
          var keyHash := auth.keyHash.GetOr(hash);
          if auth.plan.Free? {
            var used := Count(usage, keyHash);
            if used >= FREE_TIER_DAILY_LIMIT {
              if !payment.NoPayment? && payable {
                if payment.NotJson? {
                  return Refused(InvalidPayment);
                }
                if !payment.valid {
                  return Refused(VerificationFailed);
                }
                return OnPayment;
              }
              if Balance(credits, keyHash) > 0 {
                ConsumeCredit(keyHash);
                return OnCredit(keyHash);
              } else if payable {
                return Refused(PaymentNeeded);
              } else {
                return Refused(RateLimited);
              }
            }
            IncrementDailyUsage(keyHash, used);
            return OnQuota(keyHash);
          } else if auth.plan.Builder? || auth.plan.Pro? {
            var paidUsage := Count(usage, keyHash);
            if paidUsage >= DailyLimit(auth.plan).value {
              return Refused(RateLimited);
            }
            IncrementDailyUsage(keyHash, paidUsage);
            return OnQuota(keyHash);
          }
          d := Unmetered;
        case Keyless(payment) =>
          if !payment.NoPayment? && payable {
            if payment.NotJson? {
              return Refused(InvalidPayment);
            }
            if !payment.valid {
              return Refused(PaymentNeeded);
            }
            return OnPayment;
          }
          d := if payable then Refused(PaymentNeeded) else Refused(KeyRequired);
      }
    }
  }

  // ----- a day -----

  datatype Event =
    | Ask(request: Request, payable: bool)
    | Buy(key: string, credits: nat)

  function After(b: Books, e: Event): Books {
    match e
    case Ask(r, payable) => Booked(b, Decide(b, r, payable))
    case Buy(key, n) => b.(credits := b.credits[key := Balance(b.credits, key) + n])
  }

  function Day(b: Books, es: seq<Event>): Books
    decreases |es|
  {
    if es == [] then b else Day(After(b, es[0]), es[1..])
  }

  /** How a day's requests were served, and what was bought. */
  datatype Tally = Tally(served: nat, unmetered: nat, paid: nat, bought: nat)

  function Tallied(b: Books, es: seq<Event>): Tally
    decreases |es|
  {
    if es == [] then Tally(0, 0, 0, 0)
    else
      var t := Tallied(After(b, es[0]), es[1..]);
      match es[0]
      case Buy(_, n) => t.(bought := t.bought + n)
      case Ask(r, payable) =>
        var d := Decide(b, r, payable);
        Tally(t.served + if d.Refused? then 0 else 1,
              t.unmetered + if d.Unmetered? then 1 else 0,
              t.paid + if d.OnPayment? then 1 else 0,
              t.bought)
  }

  ghost function Sum(m: map<string, int>): int
    decreases |m|
  {
    if m == map[] then 0
    else
      var key :| key in m;
      m[key] + Sum(m - {key})
  }

  lemma {:induction false} SumTakes(m: map<string, int>, key: string)
    requires key in m
    ensures Sum(m) == m[key] + Sum(m - {key})
    decreases |m|
  {
    var k :| k in m && Sum(m) == m[k] + Sum(m - {k});
    if k != key {
      var less := m - {k};
      assert less.Keys == m.Keys - {k} && |less.Keys| == |less|;
      SumTakes(less, key);
      assert (m - {key}) - {k} == less - {key};
      assert (m - {key}).Keys == m.Keys - {key} && |(m - {key}).Keys| == |m - {key}|;
      SumTakes(m - {key}, k);
    }
  }

  lemma SumAfterPut(m: map<string, int>, key: string, value: int)
    ensures Sum(m[key := value]) == Sum(m) - Balance(m, key) + value
  {
    SumTakes(m[key := value], key);
    assert m[key := value] - {key} == m - {key};
    if key in m {
      SumTakes(m, key);
    } else {
      assert m - {key} == m;
    }
  }

  /** The usage counters as integers. */
  function Counters(b: Books): map<string, int> {
    map key | key in b.usage :: b.usage[key]
  }

  lemma BookedSums(b: Books, d: Decision)
    ensures Sum(Counters(Booked(b, d))) == Sum(Counters(b)) + if d.OnQuota? then 1 else 0
    ensures Sum(Booked(b, d).credits) == Sum(b.credits) - if d.OnCredit? then 1 else 0
  {
    match d {
      case OnQuota(key) =>
        SumAfterPut(Counters(b), key, Count(b.usage, key) + 1);
        assert Counters(Booked(b, d)) == Counters(b)[key := Count(b.usage, key) + 1];
      case OnCredit(key) => SumAfterPut(b.credits, key, Balance(b.credits, key) - 1);
      case _ =>
    }
  }

  /**
   Main result, conservation over any day: every request served is one step of a
   usage counter, one credit, one payment, or a request on a plan without a meter.
   */
  lemma {:induction false} EveryServiceIsAccountedFor(b: Books, es: seq<Event>)
    ensures var b', t := Day(b, es), Tallied(b, es);
            t.served == (Sum(Counters(b')) - Sum(Counters(b))) + (Sum(b.credits) + t.bought - Sum(b'.credits))
                        + t.paid + t.unmetered
    decreases |es|
  {
    if es == [] {
    } else {
      EveryServiceIsAccountedFor(After(b, es[0]), es[1..]);
      match es[0] {
        case Ask(r, payable) => BookedSums(b, Decide(b, r, payable));
        case Buy(key, n) => SumAfterPut(b.credits, key, Balance(b.credits, key) + n);
      }
    }
  }

  /** A refused request changes no counter and no balance. */
  lemma RefusalsAreFree(b: Books, r: Request, payable: bool)
    requires Decide(b, r, payable).Refused?
    ensures After(b, Ask(r, payable)) == b
  {
  }

  /** The day without the requests that were refused. */
  function Unrefused(b: Books, es: seq<Event>): seq<Event>
    decreases |es|
  {
    if es == [] then []
    else
      var rest := Unrefused(After(b, es[0]), es[1..]);
      if es[0].Ask? && Decide(b, es[0].request, es[0].payable).Refused? then rest else [es[0]] + rest
  }

  /** How the requests that were served were served, in order. */
  function Services(b: Books, es: seq<Event>): seq<Decision>
    decreases |es|
  {
    if es == [] then []
    else
      var rest := Services(After(b, es[0]), es[1..]);
      if es[0].Ask? && !Decide(b, es[0].request, es[0].payable).Refused?
      then [Decide(b, es[0].request, es[0].payable)] + rest else rest
  }

  /** Refused requests leave no trace: without them the day ends with the same books and serves the rest alike. */
  lemma {:induction false} RefusalsLeaveNoTrace(b: Books, es: seq<Event>)
    ensures Day(b, Unrefused(b, es)) == Day(b, es)
    ensures Services(b, Unrefused(b, es)) == Services(b, es)
    decreases |es|
  {
    if es == [] {
    } else {
      var rest := Unrefused(After(b, es[0]), es[1..]);
      RefusalsLeaveNoTrace(After(b, es[0]), es[1..]);
      if es[0].Ask? && Decide(b, es[0].request, es[0].payable).Refused? {
        RefusalsAreFree(b, es[0].request, es[0].payable);
      } else {
        assert ([es[0]] + rest)[1..] == rest;
      }
    }
  }

  predicate Solvent(b: Books) {
    forall key :: key in b.credits ==> b.credits[key] >= 0
  }

  lemma {:induction false} CreditsNeverGoNegative(b: Books, es: seq<Event>)
    requires Solvent(b)
    ensures Solvent(Day(b, es))
    decreases |es|
  {
    if es == [] {
    } else {
      CreditsNeverGoNegative(After(b, es[0]), es[1..]);
    }
  }

  /** `key` comes with plan `p` all day. */
  predicate OnPlan(es: seq<Event>, key: string, p: Plan) {
    forall i :: 0 <= i < |es| && es[i].Ask? && es[i].request.Keyed? && KeyOf(es[i].request) == key ==>
      es[i].request.auth.plan == p
  }

  /** Main result: a counter never goes past its plan's limit, and it never goes down. */
  lemma {:induction false} CountersStayWithinPlan(b: Books, es: seq<Event>, key: string, p: Plan)
    requires OnPlan(es, key, p) && DailyLimit(p).Some?
    requires Count(b.usage, key) <= DailyLimit(p).value
    ensures Count(b.usage, key) <= Count(Day(b, es).usage, key) <= DailyLimit(p).value
    decreases |es|
  {
    if es == [] {
    } else {
      CountersStayWithinPlan(After(b, es[0]), es[1..], key, p);
    }
  }

  function Min(a: int, b: int): int {
    if a <= b then a else b
  }

  /** Every event is a request of the free key `key` without a payment. */
  predicate FreeRiders(es: seq<Event>, key: string) {
    forall i :: 0 <= i < |es| ==>
      && es[i].Ask? && es[i].request.Keyed? && es[i].request.auth.allowed
      && es[i].request.auth.plan.Free? && KeyOf(es[i].request) == key && es[i].request.payment.NoPayment?
  }

  /** Main result: a free key gets exactly what is left of its quota and then its credits, no more and no less. */
  lemma {:induction false} FreeKeyGetsQuotaThenCredits(b: Books, es: seq<Event>, key: string)
    requires FreeRiders(es, key) && Balance(b.credits, key) >= 0
    requires Count(b.usage, key) <= 500
    ensures Tallied(b, es).served
            == Min(|es|, 500 - Count(b.usage, key) + Balance(b.credits, key))
    decreases |es|
  {
    if es == [] {
    } else {
      FreeKeyGetsQuotaThenCredits(After(b, es[0]), es[1..], key);
    }
  }

  /** Every event is a request of `key`, allowed on plan `p`. */
  predicate Riders(es: seq<Event>, key: string, p: Plan) {
    forall i :: 0 <= i < |es| ==>
      && es[i].Ask? && es[i].request.Keyed? && es[i].request.auth.allowed
      && es[i].request.auth.plan == p && KeyOf(es[i].request) == key
  }

  /** A paid key gets exactly what is left of its daily limit, whatever it pays or holds besides. */
  lemma {:induction false} PaidKeyGetsItsQuota(b: Books, es: seq<Event>, key: string, p: Plan)
    requires p.Builder? || p.Pro?
    requires Riders(es, key, p) && Count(b.usage, key) <= DailyLimit(p).value
    ensures Tallied(b, es).served == Min(|es|, DailyLimit(p).value - Count(b.usage, key))
    ensures Day(b, es).credits == b.credits
    decreases |es|
  {
    if es == [] {
    } else {
      PaidKeyGetsItsQuota(After(b, es[0]), es[1..], key, p);
    }
  }

  predicate AllKeyless(es: seq<Event>) {
    forall i :: 0 <= i < |es| ==> es[i].Ask? && es[i].request.Keyless?
  }

  function ValidPayments(es: seq<Event>): nat
    requires AllKeyless(es)
  {
    if es == [] then 0
    else (if es[0].payable && es[0].request.payment == Payment(true) then 1 else 0) + ValidPayments(es[1..])
  }

  /** Without a key exactly the valid payments are served, where the service can be paid, and no book changes. */
  lemma {:induction false} KeylessServiceIsPaid(b: Books, es: seq<Event>)
    requires AllKeyless(es)
    ensures Tallied(b, es).served == Tallied(b, es).paid == ValidPayments(es) && Day(b, es) == b
    decreases |es|
  {
    if es == [] {
    } else {
      KeylessServiceIsPaid(After(b, es[0]), es[1..]);
    }
  }

  // ----- who is served, and who is refused with what -----

  /** The books know a key by the hash that the key check gives, or else by the hash of the key itself. */
  predicate Named(r: Request, key: string) {
    r.Keyed? && match r.auth.keyHash { case Some(h) => key == h case None => key == r.hash }
  }

  /** A free key that has had its 500 requests. */
  predicate FreeAndSpent(b: Books, r: Request, key: string) {
    Named(r, key) && r.auth.allowed && r.auth.plan == Free && Count(b.usage, key) >= 500
  }

  /** A paid key that has had those of its plan. */
  predicate PaidAndSpent(b: Books, r: Request, key: string) {
    && Named(r, key) && r.auth.allowed
    && (|| (r.auth.plan == Builder && Count(b.usage, key) >= 50_000)
        || (r.auth.plan == Pro && Count(b.usage, key) >= 200_000))
  }

  /** A payment is looked at where there is one and an address to be paid at. */
  predicate Pays(r: Request, payable: bool) {
    payable && r.payment != NoPayment
  }

  /** Main result on who is served: each way of being served has its exact condition. */
  lemma WhoIsServed(b: Books, r: Request, payable: bool, key: string)
    ensures Decide(b, r, payable) == OnQuota(key) <==>
              && Named(r, key) && r.auth.allowed && !r.auth.plan.OtherPlan?
              && !FreeAndSpent(b, r, key) && !PaidAndSpent(b, r, key)
    ensures Decide(b, r, payable) == OnCredit(key) <==>
              FreeAndSpent(b, r, key) && !Pays(r, payable) && Balance(b.credits, key) > 0
    ensures r.Keyless? ==> (Decide(b, r, payable) == OnPayment <==> payable && r.payment == Payment(true))
    ensures Named(r, key) ==>
              (Decide(b, r, payable) == OnPayment <==>
               FreeAndSpent(b, r, key) && payable && r.payment == Payment(true))
    ensures Decide(b, r, payable) == Unmetered <==> r.Keyed? && r.auth.allowed && r.auth.plan.OtherPlan?
  {
  }

  /** And so has each refusal. */
  lemma WhoIsRefusedWithWhat(b: Books, r: Request, payable: bool, key: string)
    requires r.Keyed? ==> Named(r, key)
    ensures forall status :: Decide(b, r, payable) == Refused(NotAllowed(status)) <==>
              r.Keyed? && !r.auth.allowed && status == r.auth.status
    ensures Decide(b, r, payable) == Refused(KeyRequired) <==> r.Keyless? && !payable
    ensures Decide(b, r, payable) == Refused(RateLimited) <==>
              || PaidAndSpent(b, r, key)
              || (FreeAndSpent(b, r, key) && !payable && Balance(b.credits, key) <= 0)
    ensures Decide(b, r, payable) == Refused(InvalidPayment) <==>
              Pays(r, payable) && r.payment == NotJson && (r.Keyless? || FreeAndSpent(b, r, key))
    ensures Decide(b, r, payable) == Refused(VerificationFailed) <==>
              Pays(r, payable) && r.payment == Payment(false) && FreeAndSpent(b, r, key)
    ensures Decide(b, r, payable) == Refused(PaymentNeeded) <==>
              || (r.Keyless? && payable && (r.payment == NoPayment || r.payment == Payment(false)))
              || (FreeAndSpent(b, r, key) && payable && r.payment == NoPayment && Balance(b.credits, key) <= 0)
  {
  }

  /** The HTTP status of a refusal. */
  function HttpStatus(why: Refusal): int {
    match why
    case NotAllowed(status) => status
    case InvalidPayment => 402
    case VerificationFailed => 402
    case PaymentNeeded => 402
    case RateLimited => 429
    case KeyRequired => 401
  }

  predicate Rejected(e: Event) {
    e.Ask? && e.request.Keyed? && !e.request.auth.allowed
  }

  /** The decisions of a day, in order. */
  function Decisions(b: Books, es: seq<Event>): seq<Decision>
    decreases |es|
  {
    if es == [] then []
    else
      (if es[0].Ask? then [Decide(b, es[0].request, es[0].payable)] else []) + Decisions(After(b, es[0]), es[1..])
  }

  /** The day without the requests of keys that the key check rejects. */
  function WithoutRejected(es: seq<Event>): seq<Event> {
    if es == [] then [] else (if Rejected(es[0]) then [] else [es[0]]) + WithoutRejected(es[1..])
  }

  /** The statuses that the key check gave to the keys it rejects. */
  function RejectedWith(es: seq<Event>): seq<int> {
    if es == [] then []
    else (if Rejected(es[0]) then [es[0].request.auth.status] else []) + RejectedWith(es[1..])
  }

  function RefusedAsNotAllowed(ds: seq<Decision>): seq<int> {
    if ds == [] then []
    else
      (if ds[0].Refused? && ds[0].why.NotAllowed? then [HttpStatus(ds[0].why)] else []) + RefusedAsNotAllowed(ds[1..])
  }

  /**
   Main result over any day: the requests of rejected keys, and no others, are refused
   as such, each with its own status; without them the books and the services are the same.
   */
  lemma {:induction false} RejectedKeysGetNothing(b: Books, es: seq<Event>)
    ensures RefusedAsNotAllowed(Decisions(b, es)) == RejectedWith(es)
    ensures Day(b, WithoutRejected(es)) == Day(b, es)
    ensures Services(b, WithoutRejected(es)) == Services(b, es)
    decreases |es|
  {
    if es == [] {
    } else {
      var e, rest := es[0], es[1..];
      RejectedKeysGetNothing(After(b, e), rest);
      var more := Decisions(After(b, e), rest);
      if e.Ask? {
        var d := Decide(b, e.request, e.payable);
        WhoIsRefusedWithWhat(b, e.request, e.payable, if e.request.Keyed? then KeyOf(e.request) else "");
        assert ([d] + more)[1..] == more;
        if Rejected(e) {
          RefusalsAreFree(b, e.request, e.payable);
          assert [] + WithoutRejected(rest) == WithoutRejected(rest);
        } else {
          assert ([e] + WithoutRejected(rest))[1..] == WithoutRejected(rest);
        }
      } else {
        assert [] + more == more;
        assert ([e] + WithoutRejected(rest))[1..] == WithoutRejected(rest);
      }
    }
  }

  /** Every request is one of the free key `key`, comes with a valid payment, and can be paid. */
  predicate Payers(es: seq<Event>, key: string) {
    forall i :: 0 <= i < |es| ==>
      && es[i].Ask? && Named(es[i].request, key) && es[i].request.auth.allowed
      && es[i].request.auth.plan == Free && es[i].request.payment == Payment(true) && es[i].payable
  }

  /** Past its quota a free key that pays is served every time, and neither its credits nor its counter change. */
  lemma {:induction false} PayingSparesTheCredits(b: Books, es: seq<Event>, key: string)
    requires Payers(es, key) && Count(b.usage, key) >= 500
    ensures Tallied(b, es).served == Tallied(b, es).paid == |es| && Day(b, es) == b
    decreases |es|
  {
    if es == [] {
    } else {
      WhoIsServed(b, es[0].request, es[0].payable, key);
      PayingSparesTheCredits(b, es[1..], key);
    }
  }

  /** The events of other keys. */
  predicate Others(es: seq<Event>, key: string) {
    forall i :: 0 <= i < |es| ==> match es[i] { case Ask(r, _) => !Named(r, key) case Buy(k, _) => k != key }
  }

  /** What others do touches neither the counter nor the balance of a key. */
  lemma {:induction false} OthersLeaveItsBooks(b: Books, es: seq<Event>, key: string)
    requires Others(es, key)
    ensures Count(Day(b, es).usage, key) == Count(b.usage, key)
    ensures Balance(Day(b, es).credits, key) == Balance(b.credits, key)
    decreases |es|
  {
    if es == [] {
    } else {
      OthersLeaveItsBooks(After(b, es[0]), es[1..], key);
    }
  }
}
