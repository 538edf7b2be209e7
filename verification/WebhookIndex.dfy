/**
 The two KV indexes of the webhook store, `webhooks:{key}` and
 `webhooks_by_mic:{mic}`, and the DELETE handler that writes them one put at a time.
 */
module WebhookIndex {
  import opened Options
  import opened WebhookDelivery
  import opened WebhookDispatching

  datatype Subscription = Subscription(id: string, url: string, mics: seq<Mic>, secret: string)

  datatype Store = Store(records: map<string, seq<Subscription>>, byMic: map<Mic, seq<Target>>)

  const EMPTY := Store(map[], map[])

  /** `getWebhookSubscriptions` and `getWebhooksByMic`. */
  function RecordOf(kv: Store, key: string): seq<Subscription> {
    if key in kv.records then kv.records[key] else []
  }

  function TargetsOf(kv: Store, mic: Mic): seq<Target> {
    if mic in kv.byMic then kv.byMic[mic] else []
  }

  function WithoutSubscription(subs: seq<Subscription>, id: string): (r: seq<Subscription>)
    ensures forall sub :: sub in r <==> sub in subs && sub.id != id
  {
    if subs == [] then []
    else (if subs[0].id != id then [subs[0]] else []) + WithoutSubscription(subs[1..], id)
  }

  function WithoutTarget(targets: seq<Target>, id: string): seq<Target> {
    if targets == [] then []
    else (if targets[0].id != id then [targets[0]] else []) + WithoutTarget(targets[1..], id)
  }

  /** The subscription `find` returns: the first with that id. */
  function Found(subs: seq<Subscription>, id: string): (r: Option<Subscription>)
    ensures r.Some? ==> r.value in subs && r.value.id == id
    ensures r == None <==> forall sub :: sub in subs ==> sub.id != id
  {
    if subs == [] then None else if subs[0].id == id then Some(subs[0]) else Found(subs[1..], id)
  }

  function RecordRemoved(kv: Store, key: string, id: string): Store {
    kv.(records := kv.records[key := WithoutSubscription(RecordOf(kv, key), id)])
  }

  function TargetRemoved(kv: Store, mic: Mic, id: string): Store {
    kv.(byMic := kv.byMic[mic := WithoutTarget(TargetsOf(kv, mic), id)])
  }

  /** The store after the record and the first `n` markets have been written. */
  function DeletedSoFar(kv: Store, key: string, id: string, mics: seq<Mic>): Store {
    if mics == [] then RecordRemoved(kv, key, id)
    else TargetRemoved(DeletedSoFar(kv, key, id, mics[..|mics| - 1]), mics[|mics| - 1], id)
  }

  /** The fan-out index after the subscribe route has pushed `t` for each market it names. */
  function PushAll(byMic: map<Mic, seq<Target>>, mics: seq<Mic>, t: Target): map<Mic, seq<Target>> {
    if mics == [] then byMic
    else
      var m := PushAll(byMic, mics[..|mics| - 1], t);
      var mic := mics[|mics| - 1];
      m[mic := (if mic in m then m[mic] else []) + [t]]
  }

  /** The store after the record and the first `n` markets have been written. */
  function SubscribedSoFar(kv: Store, key: string, sub: Subscription, mics: seq<Mic>): Store {
    Store(kv.records[key := RecordOf(kv, key) + [sub]],
          PushAll(kv.byMic, mics, Target(sub.id, key, sub.url, sub.secret)))
  }

  // ----- requests, put by put -----

  datatype Op =
    | Subscribe(key: string, sub: Subscription)
    | Delete(key: string, id: string)

  /** The markets whose lists a request rewrites, one put each, after the put of the record. */
  function MarketsOf(kv: Store, op: Op): seq<Mic> {
    match op
    case Subscribe(_, sub) => sub.mics
    case Delete(key, id) => if Found(RecordOf(kv, key), id).Some? then Found(RecordOf(kv, key), id).value.mics else []
  }

  /** How many puts a request makes. */
  function Puts(kv: Store, op: Op): nat {
    if op.Delete? && Found(RecordOf(kv, op.key), op.id) == None then 0 else 1 + |MarketsOf(kv, op)|
  }

  /** The store after the first `n` puts: what a dispatcher comes upon that reads just then. */
  function AfterPuts(kv: Store, op: Op, n: nat): Store
    requires n <= Puts(kv, op)
  {
    if n == 0 then kv
    else
      match op
      case Subscribe(key, sub) => SubscribedSoFar(kv, key, sub, sub.mics[..n - 1])
      case Delete(key, id) => DeletedSoFar(kv, key, id, MarketsOf(kv, op)[..n - 1])
  }

  // ----- what the indexes say -----

  /** The subscriber records say that `id` of `key` wants `mic`. */
  predicate Wants(kv: Store, key: string, id: string, mic: Mic) {
    exists sub :: sub in RecordOf(kv, key) && sub.id == id && mic in sub.mics
  }

  /** The fan-out index says so. */
  predicate Indexed(kv: Store, key: string, id: string, mic: Mic) {
    exists t :: t in TargetsOf(kv, mic) && t.id == id && t.keyHash == key
  }

  /** Nothing a subscriber is owed is missing from the fan-out index. */
  ghost predicate Superset(kv: Store) {
    forall key, id, mic :: Wants(kv, key, id, mic) ==> Indexed(kv, key, id, mic)
  }

  /** The fan-out index is the inverse of the subscriber records. */
  ghost predicate Exact(kv: Store) {
    forall key, id, mic :: Wants(kv, key, id, mic) <==> Indexed(kv, key, id, mic)
  }

  predicate DistinctIds(subs: seq<Subscription>) {
    forall i, j :: 0 <= i < j < |subs| ==> subs[i].id != subs[j].id
  }

  /** `sub` is on record for `key`. */
  predicate OnRecord(kv: Store, key: string, sub: Subscription) {
    sub in RecordOf(kv, key)
  }

  /** Webhook ids are UUIDs: no two subscriptions, and no two keys, share one. */
  ghost predicate UniqueIds(kv: Store) {
    && (forall key :: DistinctIds(RecordOf(kv, key)))
    && (forall key, key', sub, sub' ::
          OnRecord(kv, key, sub) && OnRecord(kv, key', sub') && sub.id == sub'.id ==> key == key' && sub == sub')
  }

  /** What is indexed for a webhook on record is what its record asks for; anything else indexed is of no record. */
  ghost predicate NothingSuperfluous(kv: Store) {
    forall key, sub, key', mic ::
      OnRecord(kv, key, sub) && Indexed(kv, key', sub.id, mic) ==> key' == key && mic in sub.mics
  }

  /** No dispatch that reads this store delivers to `id`. */
  ghost predicate Unreachable(kv: Store, id: string) {
    forall mic, t :: t in TargetsOf(kv, mic) ==> t.id != id
  }

  /** `seen` is the store after each of the first puts. */
  predicate PutByPut(kv: Store, op: Op, seen: seq<Store>) {
    |seen| <= Puts(kv, op) && forall n :: 0 <= n < |seen| ==> seen[n] == AfterPuts(kv, op, n + 1)
  }

  lemma OnePutMore(kv: Store, op: Op, seen: seq<Store>)
    requires PutByPut(kv, op, seen) && |seen| < Puts(kv, op)
    ensures PutByPut(kv, op, seen + [AfterPuts(kv, op, |seen| + 1)])
  {
  }

  lemma OneMoreMarket(kv: Store, op: Op, n: nat)
    requires n < |MarketsOf(kv, op)|
    ensures var mic, kv' := MarketsOf(kv, op)[n], AfterPuts(kv, op, n + 1);
            AfterPuts(kv, op, n + 2)
            == match op
               case Subscribe(key, sub) =>
                 kv'.(byMic := kv'.byMic[mic := TargetsOf(kv', mic) + [Target(sub.id, key, sub.url, sub.secret)]])
               case Delete(_, id) => TargetRemoved(kv', mic, id)
  {
    assert MarketsOf(kv, op)[..n + 1][..n] == MarketsOf(kv, op)[..n];
  }

  class Worker {
    var kv: Store

    constructor ()
      ensures kv == EMPTY
    {
      kv := EMPTY;
    }

    /** POST /v5/webhooks/subscribe, once the request has been accepted; `seen` is the store after each put. */
    method Subscribe(key: string, sub: Subscription) returns (seen: seq<Store>)
      modifies this
      ensures kv == SubscribedSoFar(old(kv), key, sub, sub.mics)
      ensures |seen| == 1 + |sub.mics| && PutByPut(old(kv), Op.Subscribe(key, sub), seen)
    {
      ghost var before, op := kv, Op.Subscribe(key, sub);
      var existing := RecordOf(kv, key);
      kv := kv.(records := kv.records[key := existing + [sub]]);
      seen := [kv];
      var target := Target(sub.id, key, sub.url, sub.secret);
      for n := 0 to |sub.mics|
        invariant kv == AfterPuts(before, op, n + 1)
        invariant |seen| == n + 1 && PutByPut(before, op, seen)
      {
        OneMoreMarket(before, op, n);
        OnePutMore(before, op, seen);
        var micTargets := TargetsOf(kv, sub.mics[n]);
        kv := kv.(byMic := kv.byMic[sub.mics[n] := micTargets + [target]]);
        seen := seen + [kv];
      }
      assert sub.mics[..|sub.mics|] == sub.mics;
    }

    /** DELETE /v5/webhooks/:id by the holder of `key`; `seen` is the store after each put. */
    method Delete(key: string, id: string) returns (status: int, seen: seq<Store>)
      modifies this
      ensures status == if Found(RecordOf(old(kv), key), id) == None then 404 else 204
      ensures status == 404 ==> kv == old(kv) && seen == []
      ensures status == 204 ==>
                kv == DeletedSoFar(old(kv), key, id, Found(RecordOf(old(kv), key), id).value.mics)
      ensures |seen| == Puts(old(kv), Op.Delete(key, id)) && PutByPut(old(kv), Op.Delete(key, id), seen)
    {
      ghost var before, op := kv, Op.Delete(key, id);
      var existing := RecordOf(kv, key);
      var sub := Found(existing, id);
      if sub == None {
        return 404, [];
      }
      var updated := WithoutSubscription(existing, id);
      kv := kv.(records := kv.records[key := updated]);
      seen := [kv];
      var mics := sub.value.mics;
      for n := 0 to |mics|
        invariant kv == AfterPuts(before, op, n + 1)
        invariant |seen| == n + 1 && PutByPut(before, op, seen)
      {
        OneMoreMarket(before, op, n);
        OnePutMore(before, op, seen);
        var targets := TargetsOf(kv, mics[n]);
        var filtered := WithoutTarget(targets, id);
        kv := kv.(byMic := kv.byMic[mics[n] := filtered]);
        seen := seen + [kv];
      }
      assert mics[..|mics|] == mics;
      status := 204;
    }
  }

  // ----- the effect of a deletion, put by put -----

  lemma {:induction false} RecordAfter(kv: Store, key: string, id: string, mics: seq<Mic>, k: string)
    ensures RecordOf(DeletedSoFar(kv, key, id, mics), k)
            == if k == key then WithoutSubscription(RecordOf(kv, k), id) else RecordOf(kv, k)
  {
    if mics == [] {
    } else {
      RecordAfter(kv, key, id, mics[..|mics| - 1], k);
    }
  }

  lemma {:induction false} InWithoutTarget(targets: seq<Target>, id: string, t: Target)
    ensures t in WithoutTarget(targets, id) <==> t in targets && t.id != id
  {
    if targets == [] {
    } else {
      InWithoutTarget(targets[1..], id, t);
      assert t in targets <==> t == targets[0] || t in targets[1..];
    }
  }

  lemma {:induction false} TargetAfter(kv: Store, key: string, id: string, mics: seq<Mic>, mic: Mic, t: Target)
    ensures t in TargetsOf(DeletedSoFar(kv, key, id, mics), mic)
            <==> t in TargetsOf(kv, mic) && (mic in mics ==> t.id != id)
  {
    if mics == [] {
    } else {
      var before := mics[..|mics| - 1];
      TargetAfter(kv, key, id, before, mic, t);
      InWithoutTarget(TargetsOf(DeletedSoFar(kv, key, id, before), mics[|mics| - 1]), id, t);
    }
  }

  lemma WantsAfter(kv: Store, key: string, id: string, mics: seq<Mic>, k: string, i: string, mic: Mic)
    ensures Wants(DeletedSoFar(kv, key, id, mics), k, i, mic) <==> Wants(kv, k, i, mic) && !(k == key && i == id)
  {
    RecordAfter(kv, key, id, mics, k);
  }

  lemma IndexedAfter(kv: Store, key: string, id: string, mics: seq<Mic>, k: string, i: string, mic: Mic)
    ensures Indexed(DeletedSoFar(kv, key, id, mics), k, i, mic) <==> Indexed(kv, k, i, mic) && !(mic in mics && i == id)
  {
    forall t
      ensures t in TargetsOf(DeletedSoFar(kv, key, id, mics), mic)
              <==> t in TargetsOf(kv, mic) && (mic in mics ==> t.id != id)
    {
      TargetAfter(kv, key, id, mics, mic, t);
    }
  }

  lemma OnlyOneWants(kv: Store, key: string, id: string, k: string, mic: Mic)
    requires UniqueIds(kv) && Found(RecordOf(kv, key), id).Some?
    ensures Wants(kv, k, id, mic) <==> k == key && mic in Found(RecordOf(kv, key), id).value.mics
  {
    var found := Found(RecordOf(kv, key), id).value;
    assert OnRecord(kv, key, found);
    forall sub | sub in RecordOf(kv, k) && sub.id == id
      ensures k == key && sub == found
    {
      assert OnRecord(kv, k, sub);
    }
  }

  /**
   Main result: if the fan-out index has all that the records ask for, every put of a
   DELETE keeps it so. The only new surplus is the deleted id in markets still to be
   written, and when the indexes matched before, they match after the last put.
   */
  lemma DeletionKeepsSuperset(kv: Store, key: string, id: string, n: nat)
    requires Superset(kv) && UniqueIds(kv) && Found(RecordOf(kv, key), id).Some?
    requires n <= |Found(RecordOf(kv, key), id).value.mics|
    ensures var mics := Found(RecordOf(kv, key), id).value.mics;
            var d := DeletedSoFar(kv, key, id, mics[..n]);
            && Superset(d)
            && (forall k, i, mic :: Indexed(d, k, i, mic) && !Wants(d, k, i, mic) ==>
                  || (Indexed(kv, k, i, mic) && !Wants(kv, k, i, mic))
                  || (k == key && i == id && mic in mics && mic !in mics[..n]))
            && (Exact(kv) && n == |mics| ==> Exact(d))
  {
    var mics := Found(RecordOf(kv, key), id).value.mics;
    var d := DeletedSoFar(kv, key, id, mics[..n]);
    forall k, i, mic
      ensures Wants(d, k, i, mic) ==> Indexed(d, k, i, mic)
      ensures Indexed(d, k, i, mic) && !Wants(d, k, i, mic) ==>
                || (Indexed(kv, k, i, mic) && !Wants(kv, k, i, mic))
                || (k == key && i == id && mic in mics && mic !in mics[..n])
    {
      WantsAfter(kv, key, id, mics[..n], k, i, mic);
      IndexedAfter(kv, key, id, mics[..n], k, i, mic);
      OnlyOneWants(kv, key, id, k, mic);
    }
    assert mics[..|mics|] == mics;
  }

  lemma DeletionKeepsIdsUnique(kv: Store, key: string, id: string, mics: seq<Mic>)
    requires UniqueIds(kv)
    ensures UniqueIds(DeletedSoFar(kv, key, id, mics))
  {
    var d := DeletedSoFar(kv, key, id, mics);
    forall k
      ensures DistinctIds(RecordOf(d, k))
      ensures forall sub :: OnRecord(d, k, sub) ==> OnRecord(kv, k, sub)
    {
      RecordAfter(kv, key, id, mics, k);
      FilteredIdsDistinct(RecordOf(kv, k), id);
    }
  }

  lemma {:induction false} FilteredIdsDistinct(subs: seq<Subscription>, id: string)
    requires DistinctIds(subs)
    ensures DistinctIds(WithoutSubscription(subs, id))
  {
    if subs == [] {
    } else {
      var rest := WithoutSubscription(subs[1..], id);
      FilteredIdsDistinct(subs[1..], id);
      forall i | 0 <= i < |rest|
        ensures rest[i].id != subs[0].id
      {
        assert rest[i] in subs[1..];
        var j :| 0 <= j < |subs[1..]| && subs[1..][j] == rest[i];
        assert subs[j + 1] == rest[i];
      }
    }
  }

  // ----- histories, any request of which may be cut off at any put -----

  /** A request that gets as far as `puts` puts, or to its end. */
  datatype Attempt = Attempt(op: Op, puts: nat)

  function Reached(kv: Store, a: Attempt): (n: nat)
    ensures n <= Puts(kv, a.op)
  {
    if a.puts <= Puts(kv, a.op) then a.puts else Puts(kv, a.op)
  }

  function Replay(kv: Store, attempts: seq<Attempt>): Store {
    if attempts == [] then kv
    else
      var before, a := Replay(kv, attempts[..|attempts| - 1]), attempts[|attempts| - 1];
      AfterPuts(before, a.op, Reached(before, a))
  }

  /** Every subscription gets an id that was never used before. */
  predicate FreshIds(attempts: seq<Attempt>) {
    forall i, j :: 0 <= i < j < |attempts| && attempts[i].op.Subscribe? && attempts[j].op.Subscribe? ==>
      attempts[i].op.sub.id != attempts[j].op.sub.id
  }

  /** Some attempt subscribes under `id`. */
  predicate Used(attempts: seq<Attempt>, id: string) {
    exists i :: 0 <= i < |attempts| && attempts[i].op.Subscribe? && attempts[i].op.sub.id == id
  }

  /** All that is stored stems from the history, and no webhook on record is listed where it should not be. */
  ghost predicate Tidy(kv: Store, attempts: seq<Attempt>) {
    && UniqueIds(kv) && NothingSuperfluous(kv)
    && (forall key, sub :: OnRecord(kv, key, sub) ==> Used(attempts, sub.id))
    && (forall key, id, mic :: Indexed(kv, key, id, mic) ==> Used(attempts, id))
  }

  lemma UsedBefore(attempts: seq<Attempt>, a: Attempt, id: string)
    ensures Used(attempts + [a], id) <==> Used(attempts, id) || (a.op.Subscribe? && a.op.sub.id == id)
  {
    if Used(attempts, id) {
      var i :| 0 <= i < |attempts| && attempts[i].op.Subscribe? && attempts[i].op.sub.id == id;
      assert (attempts + [a])[i] == attempts[i];
    }
    if a.op.Subscribe? && a.op.sub.id == id {
      assert (attempts + [a])[|attempts|] == a;
    }
  }

  lemma {:induction false} PushedContents(kv: Store, mics: seq<Mic>, t: Target, mic: Mic, t': Target)
    ensures t' in TargetsOf(kv.(byMic := PushAll(kv.byMic, mics, t)), mic)
            <==> t' in TargetsOf(kv, mic) || (t' == t && mic in mics)
  {
    if mics == [] {
    } else {
      PushedContents(kv, mics[..|mics| - 1], t, mic, t');
    }
  }

  lemma SubscribeRecords(kv: Store, key: string, sub: Subscription, mics: seq<Mic>, k: string, s: Subscription)
    ensures OnRecord(SubscribedSoFar(kv, key, sub, mics), k, s) <==> OnRecord(kv, k, s) || (k == key && s == sub)
  {
  }

  lemma SubscribeWants(kv: Store, key: string, sub: Subscription, mics: seq<Mic>, k: string, i: string, mic: Mic)
    ensures Wants(SubscribedSoFar(kv, key, sub, mics), k, i, mic)
            <==> Wants(kv, k, i, mic) || (k == key && i == sub.id && mic in sub.mics)
  {
    var kv' := SubscribedSoFar(kv, key, sub, mics);
    assert forall s :: s in RecordOf(kv', key) <==> s in RecordOf(kv, key) || s == sub;
  }

  lemma SubscribeIndexes(kv: Store, key: string, sub: Subscription, mics: seq<Mic>, k: string, i: string, mic: Mic)
    ensures Indexed(SubscribedSoFar(kv, key, sub, mics), k, i, mic)
            <==> Indexed(kv, k, i, mic) || (k == key && i == sub.id && mic in mics)
  {
    var kv', t := SubscribedSoFar(kv, key, sub, mics), Target(sub.id, key, sub.url, sub.secret);
    forall t'
      ensures t' in TargetsOf(kv', mic) <==> t' in TargetsOf(kv, mic) || (t' == t && mic in mics)
    {
      PushedContents(kv, mics, t, mic, t');
    }
    if k == key && i == sub.id && mic in mics {
      assert t in TargetsOf(kv', mic);
    }
  }

  lemma SubscribeKeepsIdsUnique(kv: Store, attempts: seq<Attempt>, key: string, sub: Subscription, mics: seq<Mic>)
    requires Tidy(kv, attempts) && !Used(attempts, sub.id)
    ensures UniqueIds(SubscribedSoFar(kv, key, sub, mics))
  {
    var kv' := SubscribedSoFar(kv, key, sub, mics);
    forall k, s
      ensures OnRecord(kv', k, s) <==> OnRecord(kv, k, s) || (k == key && s == sub)
      ensures OnRecord(kv, k, s) ==> s.id != sub.id
    {
      SubscribeRecords(kv, key, sub, mics, k, s);
    }
    forall k
      ensures DistinctIds(RecordOf(kv', k))
    {
      forall i | 0 <= i < |RecordOf(kv, key)|
        ensures RecordOf(kv, key)[i].id != sub.id
      {
        assert OnRecord(kv, key, RecordOf(kv, key)[i]);
      }
      assert DistinctIds(RecordOf(kv, k));
    }
  }

  lemma SubscribeKeepsTidy(kv: Store, attempts: seq<Attempt>, a: Attempt, mics: seq<Mic>)
    requires Tidy(kv, attempts) && a.op.Subscribe? && !Used(attempts, a.op.sub.id)
    requires forall mic :: mic in mics ==> mic in a.op.sub.mics
    ensures Tidy(SubscribedSoFar(kv, a.op.key, a.op.sub, mics), attempts + [a])
  {
    var key, sub := a.op.key, a.op.sub;
    var kv' := SubscribedSoFar(kv, key, sub, mics);
    SubscribeKeepsIdsUnique(kv, attempts, key, sub, mics);
    forall k, s | OnRecord(kv', k, s)
      ensures Used(attempts + [a], s.id)
      ensures forall k', mic :: Indexed(kv', k', s.id, mic) ==> k' == k && mic in s.mics
    {
      SubscribeRecords(kv, key, sub, mics, k, s);
      UsedBefore(attempts, a, s.id);
      forall k', mic | Indexed(kv', k', s.id, mic)
        ensures k' == k && mic in s.mics
      {
        SubscribeIndexes(kv, key, sub, mics, k', s.id, mic);
      }
    }
    forall k, i, mic | Indexed(kv', k, i, mic)
      ensures Used(attempts + [a], i)
    {
      SubscribeIndexes(kv, key, sub, mics, k, i, mic);
      UsedBefore(attempts, a, i);
    }
  }

  lemma DeleteKeepsTidy(kv: Store, attempts: seq<Attempt>, a: Attempt, mics: seq<Mic>)
    requires Tidy(kv, attempts) && a.op.Delete?
    ensures Tidy(DeletedSoFar(kv, a.op.key, a.op.id, mics), attempts + [a])
  {
    var d := DeletedSoFar(kv, a.op.key, a.op.id, mics);
    DeletionKeepsIdsUnique(kv, a.op.key, a.op.id, mics);
    forall k, s | OnRecord(d, k, s)
      ensures OnRecord(kv, k, s) && Used(attempts + [a], s.id)
    {
      RecordAfter(kv, a.op.key, a.op.id, mics, k);
      assert OnRecord(kv, k, s);
      UsedBefore(attempts, a, s.id);
    }
    forall k, i, mic | Indexed(d, k, i, mic)
      ensures Indexed(kv, k, i, mic) && Used(attempts + [a], i)
    {
      IndexedAfter(kv, a.op.key, a.op.id, mics, k, i, mic);
      UsedBefore(attempts, a, i);
    }
  }

  lemma AttemptKeepsTidy(kv: Store, attempts: seq<Attempt>, a: Attempt)
    requires Tidy(kv, attempts) && FreshIds(attempts + [a])
    ensures Tidy(AfterPuts(kv, a.op, Reached(kv, a)), attempts + [a])
  {
    var n := Reached(kv, a);
    assert forall i :: 0 <= i < |attempts| ==> (attempts + [a])[i] == attempts[i];
    assert (attempts + [a])[|attempts|] == a;
    if n == 0 {
      forall id
        ensures Used(attempts, id) ==> Used(attempts + [a], id)
      {
        UsedBefore(attempts, a, id);
      }
    } else if a.op.Subscribe? {
      SubscribeKeepsTidy(kv, attempts, a, a.op.sub.mics[..n - 1]);
    } else {
      DeleteKeepsTidy(kv, attempts, a, MarketsOf(kv, a.op)[..n - 1]);
    }
  }

  lemma {:induction false} HistoriesStayTidy(attempts: seq<Attempt>)
    requires FreshIds(attempts)
    ensures Tidy(Replay(EMPTY, attempts), attempts)
  {
    if attempts == [] {
    } else {
      var before, a := attempts[..|attempts| - 1], attempts[|attempts| - 1];
      assert attempts == before + [a];
      HistoriesStayTidy(before);
      AttemptKeepsTidy(Replay(EMPTY, before), before, a);
    }
  }

  /** The first `n` puts of a subscribe write the lists of all its markets, or nothing at all. */
  predicate ReachesAll(sub: Subscription, n: nat) {
    n == 0 || forall mic :: mic in sub.mics ==> mic in sub.mics[..if n - 1 <= |sub.mics| then n - 1 else |sub.mics|]
  }

  /** No subscribe is cut off between its markets, though deletes may be. */
  predicate SubscribesWhole(attempts: seq<Attempt>) {
    forall a :: a in attempts && a.op.Subscribe? ==> ReachesAll(a.op.sub, a.puts)
  }

  predicate DeletesWhole(kv: Store, attempts: seq<Attempt>) {
    attempts == [] ||
    (var before, a := attempts[..|attempts| - 1], attempts[|attempts| - 1];
     DeletesWhole(kv, before) && (a.op.Delete? ==> a.puts >= Puts(Replay(kv, before), a.op)))
  }

  /**
   Main result: after every history of subscribes and deletes, the deletes cut off
   at any put, the fan-out index has all that the records ask for. When no delete
   was cut off either, the two indexes match.
   */
  lemma {:induction false} HistoriesKeepSuperset(attempts: seq<Attempt>)
    requires FreshIds(attempts) && SubscribesWhole(attempts)
    ensures Superset(Replay(EMPTY, attempts))
    ensures DeletesWhole(EMPTY, attempts) ==> Exact(Replay(EMPTY, attempts))
  {
    if attempts == [] {
    } else {
      var before, a := attempts[..|attempts| - 1], attempts[|attempts| - 1];
      assert attempts == before + [a];
      HistoriesKeepSuperset(before);
      HistoriesStayTidy(before);
      AttemptKeepsSuperset(Replay(EMPTY, before), a);
    }
  }

  lemma SubscribeKeepsSuperset(kv: Store, key: string, sub: Subscription, reached: seq<Mic>)
    requires Superset(kv) && forall mic :: mic in sub.mics <==> mic in reached
    ensures Superset(SubscribedSoFar(kv, key, sub, reached))
    ensures Exact(kv) ==> Exact(SubscribedSoFar(kv, key, sub, reached))
  {
    forall k, i, mic
      ensures var kv' := SubscribedSoFar(kv, key, sub, reached);
              && (Wants(kv', k, i, mic) ==> Indexed(kv', k, i, mic))
              && (Exact(kv) ==> (Wants(kv', k, i, mic) <==> Indexed(kv', k, i, mic)))
    {
      SubscribeWants(kv, key, sub, reached, k, i, mic);
      SubscribeIndexes(kv, key, sub, reached, k, i, mic);
    }
  }

  lemma DeleteKeepsSuperset(kv: Store, op: Op, n: nat)
    requires Superset(kv) && UniqueIds(kv) && op.Delete? && 0 < n <= Puts(kv, op)
    ensures Superset(AfterPuts(kv, op, n))
    ensures Exact(kv) && n == Puts(kv, op) ==> Exact(AfterPuts(kv, op, n))
  {
    DeletionKeepsSuperset(kv, op.key, op.id, n - 1);
  }

  lemma AttemptKeepsSuperset(kv: Store, a: Attempt)
    requires Superset(kv) && UniqueIds(kv) && (a.op.Subscribe? ==> ReachesAll(a.op.sub, a.puts))
    ensures Superset(AfterPuts(kv, a.op, Reached(kv, a)))
    ensures Exact(kv) && (a.op.Delete? ==> a.puts >= Puts(kv, a.op)) ==> Exact(AfterPuts(kv, a.op, Reached(kv, a)))
  {
    var n := Reached(kv, a);
    if n == 0 {
    } else if a.op.Delete? {
      DeleteKeepsSuperset(kv, a.op, n);
    } else {
      SubscribeKeepsSuperset(kv, a.op.key, a.op.sub, a.op.sub.mics[..n - 1]);
    }
  }

  /**
   A subscribe cut off between its markets leaves a webhook on record that the
   dispatcher never reaches there: the index keeps all that the records ask for
   exactly when the markets written so far are all that it names.
   */
  lemma CutOffSubscribeLeavesGap(kv: Store, attempts: seq<Attempt>, key: string, sub: Subscription, n: nat)
    requires Superset(kv) && Tidy(kv, attempts) && !Used(attempts, sub.id) && n <= |sub.mics|
    ensures Superset(SubscribedSoFar(kv, key, sub, sub.mics[..n]))
            <==> forall mic :: mic in sub.mics ==> mic in sub.mics[..n]
  {
    var kv' := SubscribedSoFar(kv, key, sub, sub.mics[..n]);
    forall k, i, mic
      ensures Wants(kv', k, i, mic) <==> Wants(kv, k, i, mic) || (k == key && i == sub.id && mic in sub.mics)
      ensures Indexed(kv', k, i, mic) <==> Indexed(kv, k, i, mic) || (k == key && i == sub.id && mic in sub.mics[..n])
    {
      SubscribeWants(kv, key, sub, sub.mics[..n], k, i, mic);
      SubscribeIndexes(kv, key, sub, sub.mics[..n], k, i, mic);
    }
    if mic :| mic in sub.mics && mic !in sub.mics[..n] {
      assert Wants(kv', key, sub.id, mic) && !Indexed(kv', key, sub.id, mic);
    }
  }

  // ----- a deleted webhook is gone -----

  lemma WholeDeletionFreesIndex(kv: Store, key: string, id: string)
    requires NothingSuperfluous(kv) && Found(RecordOf(kv, key), id).Some?
    ensures Unreachable(AfterPuts(kv, Delete(key, id), Puts(kv, Delete(key, id))), id)
  {
    var sub := Found(RecordOf(kv, key), id).value;
    var d := DeletedSoFar(kv, key, id, sub.mics);
    assert sub.mics[..|sub.mics|] == sub.mics;
    assert OnRecord(kv, key, sub);
    forall mic, t | t in TargetsOf(d, mic)
      ensures t.id != id
    {
      TargetAfter(kv, key, id, sub.mics, mic, t);
      if t.id == id {
        assert Indexed(kv, t.keyHash, id, mic);
      }
    }
  }

  lemma AttemptLeavesUnreachable(kv: Store, a: Attempt, id: string)
    requires Unreachable(kv, id) && (a.op.Subscribe? ==> a.op.sub.id != id)
    ensures Unreachable(AfterPuts(kv, a.op, Reached(kv, a)), id)
  {
    var n := Reached(kv, a);
    forall mic, t | t in TargetsOf(AfterPuts(kv, a.op, n), mic)
      ensures t.id != id
    {
      if n == 0 {
      } else {
        match a.op {
          case Subscribe(key, sub) =>
            PushedContents(kv, sub.mics[..n - 1], Target(sub.id, key, sub.url, sub.secret), mic, t);
          case Delete(key, i) =>
            TargetAfter(kv, key, i, MarketsOf(kv, a.op)[..n - 1], mic, t);
        }
      }
    }
  }

  lemma {:induction false} LaterAttemptsLeaveUnreachable(kv: Store, attempts: seq<Attempt>, id: string)
    requires Unreachable(kv, id) && !Used(attempts, id)
    ensures Unreachable(Replay(kv, attempts), id)
  {
    if attempts == [] {
    } else {
      var before, a := attempts[..|attempts| - 1], attempts[|attempts| - 1];
      assert attempts == before + [a];
      UsedBefore(before, a, id);
      LaterAttemptsLeaveUnreachable(kv, before, id);
      AttemptLeavesUnreachable(Replay(kv, before), a, id);
    }
  }

  /**
   Main result: once a DELETE has answered 204, no read of the fan-out index that
   falls between any two later puts returns that webhook, whatever is subscribed or
   deleted meanwhile and wherever those requests, or the ones before, are cut off.
   */
  lemma DeletedStaysUnreachable(before: seq<Attempt>, key: string, id: string, more: seq<Attempt>)
    requires FreshIds(before + more)
    requires Found(RecordOf(Replay(EMPTY, before), key), id).Some?
    ensures var kv, op := Replay(EMPTY, before), Op.Delete(key, id);
            Unreachable(Replay(AfterPuts(kv, op, Puts(kv, op)), more), id)
  {
    var kv := Replay(EMPTY, before);
    var sub := Found(RecordOf(kv, key), id).value;
    assert forall i :: 0 <= i < |before| ==> (before + more)[i] == before[i];
    assert forall i :: 0 <= i < |more| ==> (before + more)[|before| + i] == more[i];
    HistoriesStayTidy(before);
    assert OnRecord(kv, key, sub);
    var i :| 0 <= i < |before| && before[i].op.Subscribe? && before[i].op.sub.id == id;
    forall j | 0 <= j < |more| && more[j].op.Subscribe?
      ensures more[j].op.sub.id != id
    {
      assert (before + more)[i] == before[i] && (before + more)[|before| + j] == more[j];
    }
    WholeDeletionFreesIndex(kv, key, id);
    LaterAttemptsLeaveUnreachable(AfterPuts(kv, Delete(key, id), Puts(kv, Delete(key, id))), more, id);
  }

  // ----- a deletion cut off -----

  /** Clearing `mics` frees the index of `id` exactly when they cover what it was subscribed to. */
  lemma ClearedMarketsAreUnreachable(kv: Store, key: string, id: string, mics: seq<Mic>)
    requires Superset(kv) && NothingSuperfluous(kv) && Found(RecordOf(kv, key), id).Some?
    ensures var owed := Found(RecordOf(kv, key), id).value.mics;
            Unreachable(DeletedSoFar(kv, key, id, mics), id) <==> forall mic :: mic in owed ==> mic in mics
  {
    var sub, d := Found(RecordOf(kv, key), id).value, DeletedSoFar(kv, key, id, mics);
    assert OnRecord(kv, key, sub);
    forall mic, t | t in TargetsOf(d, mic) && t.id == id
      ensures mic in sub.mics && mic !in mics
    {
      TargetAfter(kv, key, id, mics, mic, t);
      assert Indexed(kv, t.keyHash, id, mic);
    }
    forall mic | mic in sub.mics && mic !in mics
      ensures exists t :: t in TargetsOf(d, mic) && t.id == id
    {
      assert Wants(kv, key, id, mic);
      assert Indexed(kv, key, id, mic);
      var t :| t in TargetsOf(kv, mic) && t.id == id && t.keyHash == key;
      TargetAfter(kv, key, id, mics, mic, t);
    }
  }

  /**
   A handler cut off after the record but before the last market leaves an orphan
   that the same request cannot clear: it now answers 404, and changes nothing.
   */
  lemma CutOffDeletionIsNotRetryable(kv: Store, key: string, id: string, n: nat)
    requires Superset(kv) && NothingSuperfluous(kv) && Found(RecordOf(kv, key), id).Some?
    requires n <= |Found(RecordOf(kv, key), id).value.mics|
    ensures var mics := Found(RecordOf(kv, key), id).value.mics;
            var d := DeletedSoFar(kv, key, id, mics[..n]);
            && Puts(d, Delete(key, id)) == 0
            && (Unreachable(d, id) <==> forall mic :: mic in mics ==> mic in mics[..n])
  {
    var mics := Found(RecordOf(kv, key), id).value.mics;
    RecordAfter(kv, key, id, mics[..n], key);
    ClearedMarketsAreUnreachable(kv, key, id, mics[..n]);
  }

  // ----- what a deletion leaves to the others -----

  lemma WithoutTargetCons(head: Target, rest: seq<Target>, id: string)
    ensures WithoutTarget([head] + rest, id)
            == if head.id != id then [head] + WithoutTarget(rest, id) else WithoutTarget(rest, id)
  {
    assert ([head] + rest)[1..] == rest;
    assert [] + WithoutTarget(rest, id) == WithoutTarget(rest, id);
  }

  lemma Associates(a: seq<Target>, b: seq<Target>, c: seq<Target>)
    ensures a + b + c == a + (b + c)
  {
  }

  lemma {:induction false} StrikingSplits(a: seq<Target>, b: seq<Target>, id: string)
    ensures WithoutTarget(a + b, id) == WithoutTarget(a, id) + WithoutTarget(b, id)
  {
    if a == [] {
      assert a + b == b;
      assert [] + WithoutTarget(b, id) == WithoutTarget(b, id);
    } else {
      var head, rest := a[0], a[1..];
      StrikingSplits(rest, b, id);
      assert a == [head] + rest;
      Associates([head], rest, b);
      WithoutTargetCons(head, rest + b, id);
      WithoutTargetCons(head, rest, id);
      Associates([head], WithoutTarget(rest, id), WithoutTarget(b, id));
    }
  }

  lemma {:induction false} StrikingKeepsOthers(a: seq<Target>, id: string)
    ensures (forall t :: t in a ==> t.id != id) ==> WithoutTarget(a, id) == a
    ensures (forall t :: t in a ==> t.id == id) ==> WithoutTarget(a, id) == []
  {
    if a == [] {
    } else {
      assert a == [a[0]] + a[1..];
      StrikingKeepsOthers(a[1..], id);
      WithoutTargetCons(a[0], a[1..], id);
    }
  }

  /**
   Main result on what a DELETE leaves to the others: wherever a run of targets with
   the id stands in a list, the run goes and what is before and behind it stays, in its
   order and number, up to further targets with that id.
   */
  lemma StrikesNothingElse(a: seq<Target>, struck: seq<Target>, b: seq<Target>, id: string)
    requires forall t :: t in struck ==> t.id == id
    requires forall t :: t in a ==> t.id != id
    ensures WithoutTarget(a + struck + b, id) == a + WithoutTarget(b, id)
    ensures (forall t :: t in b ==> t.id != id) ==> WithoutTarget(a + struck + b, id) == a + b
  {
    StrikingKeepsOthers(a, id);
    StrikingKeepsOthers(struck, id);
    StrikingKeepsOthers(b, id);
    calc {
      WithoutTarget(a + struck + b, id);
      { StrikingSplits(a + struck, b, id); }
      WithoutTarget(a + struck, id) + WithoutTarget(b, id);
      { StrikingSplits(a, struck, id); }
      a + [] + WithoutTarget(b, id);
      { assert a + [] == a; }
      a + WithoutTarget(b, id);
    }
  }

  /** In the record, where an id stands once, the others keep their order too. */
  lemma {:induction false} RecordKeepsTheRest(a: seq<Subscription>, sub: Subscription, b: seq<Subscription>)
    requires forall s :: s in a + b ==> s.id != sub.id
    ensures WithoutSubscription(a + [sub] + b, sub.id) == a + b
  {
    if a == [] {
      assert [] + [sub] + b == [sub] + b && ([sub] + b)[1..] == b && [] + b == b;
      NothingToStrike(b, sub.id);
    } else {
      assert a + [sub] + b == [a[0]] + (a[1..] + [sub] + b);
      assert a + b == [a[0]] + (a[1..] + b);
      assert a[0] in a + b;
      RecordKeepsTheRest(a[1..], sub, b);
    }
  }

  lemma {:induction false} NothingToStrike(subs: seq<Subscription>, id: string)
    requires forall s :: s in subs ==> s.id != id
    ensures WithoutSubscription(subs, id) == subs
  {
    if subs == [] {
    } else {
      assert subs == [subs[0]] + subs[1..];
      NothingToStrike(subs[1..], id);
    }
  }

  /** Every put of a DELETE leaves each list as it was or strikes the id from it, and nothing else. */
  lemma {:induction false} EachPutStrikesOneId(kv: Store, key: string, id: string, mics: seq<Mic>, mic: Mic)
    ensures TargetsOf(DeletedSoFar(kv, key, id, mics), mic)
            == if mic in mics then WithoutTarget(TargetsOf(kv, mic), id) else TargetsOf(kv, mic)
  {
    if mics == [] {
    } else {
      var before := mics[..|mics| - 1];
      EachPutStrikesOneId(kv, key, id, before, mic);
      StrikingAgain(TargetsOf(kv, mic), id);
    }
  }

  lemma {:induction false} StrikingAgain(targets: seq<Target>, id: string)
    ensures WithoutTarget(WithoutTarget(targets, id), id) == WithoutTarget(targets, id)
  {
    if targets == [] {
    } else {
      var head, rest := targets[0], targets[1..];
      assert targets == [head] + rest;
      StrikingAgain(rest, id);
      WithoutTargetCons(head, rest, id);
      WithoutTargetCons(head, WithoutTarget(rest, id), id);
    }
  }

  // ----- how often a webhook is listed -----

  /** The number of targets with that id. */
  function Listings(targets: seq<Target>, id: string): nat {
    if targets == [] then 0 else (if targets[0].id == id then 1 else 0) + Listings(targets[1..], id)
  }

  /** The number of times that a market is named. */
  function Named(mics: seq<Mic>, mic: Mic): nat {
    if mics == [] then 0
    else Named(mics[..|mics| - 1], mic) + if mics[|mics| - 1] == mic then 1 else 0
  }

  lemma {:induction false} ListingsAppend(targets: seq<Target>, t: Target, id: string)
    ensures Listings(targets + [t], id) == Listings(targets, id) + if t.id == id then 1 else 0
  {
    if targets == [] {
      assert [] + [t] == [t] && [t][1..] == [];
    } else {
      assert (targets + [t])[1..] == targets[1..] + [t];
      ListingsAppend(targets[1..], t, id);
    }
  }

  lemma ListingsCons(head: Target, rest: seq<Target>, id: string)
    ensures Listings([head] + rest, id) == (if head.id == id then 1 else 0) + Listings(rest, id)
  {
    assert ([head] + rest)[1..] == rest;
  }

  lemma {:induction false} StrikingKeepsListings(targets: seq<Target>, id: string, other: string)
    requires id != other
    ensures Listings(WithoutTarget(targets, id), other) == Listings(targets, other)
  {
    if targets == [] {
    } else {
      var head, rest := targets[0], targets[1..];
      assert targets == [head] + rest;
      StrikingKeepsListings(rest, id, other);
      WithoutTargetCons(head, rest, id);
      ListingsCons(head, WithoutTarget(rest, id), other);
    }
  }

  lemma {:induction false} ListedNever(targets: seq<Target>, id: string)
    ensures Listings(targets, id) == 0 <==> forall t :: t in targets ==> t.id != id
  {
    if targets == [] {
    } else {
      ListedNever(targets[1..], id);
      assert forall t :: t in targets <==> t == targets[0] || t in targets[1..];
    }
  }

  /** The first listing stands at `k`, and there is no other. */
  predicate ListedAt(targets: seq<Target>, id: string, k: nat) {
    k < |targets| && targets[k].id == id && forall j :: 0 <= j < |targets| && targets[j].id == id ==> j == k
  }

  lemma OneListingAt(targets: seq<Target>, id: string, k: nat)
    requires ListedAt(targets, id, k)
    ensures Listings(targets, id) == 1
  {
    ListingsSplit(targets[..k], targets[k..], id);
    ListedNever(targets[..k], id);
    ListedNever(targets[k + 1..], id);
    assert targets[k..] == [targets[k]] + targets[k + 1..] && targets == targets[..k] + targets[k..];
    ListingsCons(targets[k], targets[k + 1..], id);
  }

  lemma {:induction false} ListingsSplit(a: seq<Target>, b: seq<Target>, id: string)
    ensures Listings(a + b, id) == Listings(a, id) + Listings(b, id)
  {
    if a == [] {
      assert a + b == b;
    } else {
      assert a + b == [a[0]] + (a[1..] + b);
      ListingsSplit(a[1..], b, id);
      ListingsCons(a[0], a[1..] + b, id);
    }
  }

  lemma {:induction false} WhereListed(targets: seq<Target>, id: string) returns (k: nat)
    requires Listings(targets, id) == 1
    ensures ListedAt(targets, id, k)
  {
    if targets[0].id == id {
      k := 0;
      ListedNever(targets[1..], id);
      forall j | 0 < j < |targets|
        ensures targets[j].id != id
      {
        assert targets[j] == targets[1..][j - 1];
      }
    } else {
      k := WhereListed(targets[1..], id);
      forall j | 0 < j < |targets| && targets[j].id == id
        ensures j == k + 1
      {
        assert targets[j] == targets[1..][j - 1];
      }
      k := k + 1;
    }
  }

  /** Listed once in the sense of the dispatcher. */
  lemma ListedOnceIsOneListing(targets: seq<Target>, id: string)
    ensures ListedOnce(targets, id) <==> Listings(targets, id) == 1
  {
    if ListedOnce(targets, id) {
      var k :| 0 <= k < |targets| && targets[k].id == id
               && forall j :: 0 <= j < |targets| && targets[j].id == id ==> j == k;
      OneListingAt(targets, id, k);
    }
    if Listings(targets, id) == 1 {
      var k := WhereListed(targets, id);
    }
  }

  lemma {:induction false} PushedListings(kv: Store, mics: seq<Mic>, t: Target, mic: Mic, id: string)
    ensures Listings(TargetsOf(kv.(byMic := PushAll(kv.byMic, mics, t)), mic), id)
            == Listings(TargetsOf(kv, mic), id) + if t.id == id then Named(mics, mic) else 0
  {
    if mics == [] {
    } else {
      var before, last := mics[..|mics| - 1], mics[|mics| - 1];
      var mid := kv.(byMic := PushAll(kv.byMic, before, t));
      PushedListings(kv, before, t, mic, id);
      ListingsAppend(TargetsOf(mid, last), t, id);
    }
  }

  function Copies(t: Target, n: nat): seq<Target> {
    if n == 0 then [] else Copies(t, n - 1) + [t]
  }

  /** A subscribe appends: the subscription to its record, and one target for each time a market is named. */
  lemma {:induction false} SubscribesAtTheEnd(kv: Store, key: string, sub: Subscription, mics: seq<Mic>, mic: Mic)
    ensures RecordOf(SubscribedSoFar(kv, key, sub, mics), key) == RecordOf(kv, key) + [sub]
    ensures TargetsOf(SubscribedSoFar(kv, key, sub, mics), mic)
            == TargetsOf(kv, mic) + Copies(Target(sub.id, key, sub.url, sub.secret), Named(mics, mic))
  {
    if mics == [] {
      assert TargetsOf(kv, mic) + [] == TargetsOf(kv, mic);
    } else {
      var t := Target(sub.id, key, sub.url, sub.secret);
      SubscribesAtTheEnd(kv, key, sub, mics[..|mics| - 1], mic);
      if mics[|mics| - 1] == mic {
        var n := Named(mics[..|mics| - 1], mic);
        assert TargetsOf(kv, mic) + Copies(t, n) + [t] == TargetsOf(kv, mic) + (Copies(t, n) + [t]);
      }
    }
  }

  /** The markets that an attempt to subscribe gets to write. */
  function Written(a: Attempt): seq<Mic>
    requires a.op.Subscribe?
  {
    var n := if a.puts <= 1 + |a.op.sub.mics| then a.puts else 1 + |a.op.sub.mics|;
    if n == 0 then [] else a.op.sub.mics[..n - 1]
  }

  lemma ListingsAfter(kv: Store, a: Attempt, mic: Mic, id: string)
    ensures a.op.Subscribe? ==>
              Listings(TargetsOf(AfterPuts(kv, a.op, Reached(kv, a)), mic), id)
              == Listings(TargetsOf(kv, mic), id) + if a.op.sub.id == id then Named(Written(a), mic) else 0
    ensures a.op.Delete? && a.op.id != id ==>
              Listings(TargetsOf(AfterPuts(kv, a.op, Reached(kv, a)), mic), id) == Listings(TargetsOf(kv, mic), id)
  {
    var n := Reached(kv, a);
    match a.op {
      case Subscribe(key, sub) =>
        PushedListings(kv, Written(a), Target(sub.id, key, sub.url, sub.secret), mic, id);
      case Delete(key, i) =>
        if n > 0 && i != id {
          EachPutStrikesOneId(kv, key, i, MarketsOf(kv, a.op)[..n - 1], mic);
          StrikingKeepsListings(TargetsOf(kv, mic), i, id);
        }
    }
  }

  lemma DeletedIsOffRecord(kv: Store, k: string, key: string, sub: Subscription, mics: seq<Mic>)
    requires UniqueIds(kv) && Found(RecordOf(kv, k), sub.id).Some?
    ensures !OnRecord(DeletedSoFar(kv, k, sub.id, mics), key, sub)
  {
    var found := Found(RecordOf(kv, k), sub.id).value;
    RecordAfter(kv, k, sub.id, mics, key);
    assert OnRecord(kv, k, found);
    if OnRecord(kv, key, sub) {
      assert key == k;
    }
  }

  /** A webhook that stays on record was there before, and the attempt was not a deletion of it that got anywhere. */
  lemma StaysOnRecord(kv: Store, attempts: seq<Attempt>, a: Attempt, key: string, sub: Subscription)
    requires Tidy(kv, attempts) && OnRecord(AfterPuts(kv, a.op, Reached(kv, a)), key, sub)
    requires a.op.Subscribe? ==> a.op.sub.id != sub.id
    ensures OnRecord(kv, key, sub)
    ensures a.op.Delete? && a.op.id == sub.id ==> Reached(kv, a) == 0
  {
    var n := Reached(kv, a);
    if n == 0 {
    } else if a.op.Subscribe? {
      SubscribeRecords(kv, a.op.key, a.op.sub, a.op.sub.mics[..n - 1], key, sub);
    } else {
      var mics := MarketsOf(kv, a.op)[..n - 1];
      RecordAfter(kv, a.op.key, a.op.id, mics, key);
      if a.op.id == sub.id {
        DeletedIsOffRecord(kv, a.op.key, key, sub, mics);
      }
    }
  }

  /**
   Main result: after every history, wherever its requests were cut off, a webhook on
   record is listed in a market as often as the puts of its subscription named it.
   */
  lemma {:induction false} ListedAsOftenAsNamed(attempts: seq<Attempt>, i: nat, mic: Mic)
    requires FreshIds(attempts) && i < |attempts| && attempts[i].op.Subscribe?
    requires OnRecord(Replay(EMPTY, attempts), attempts[i].op.key, attempts[i].op.sub)
    ensures Listings(TargetsOf(Replay(EMPTY, attempts), mic), attempts[i].op.sub.id)
            == Named(Written(attempts[i]), mic)
    decreases |attempts|
  {
    var before, a := attempts[..|attempts| - 1], attempts[|attempts| - 1];
    var kv, op := Replay(EMPTY, before), attempts[i].op;
    assert attempts == before + [a];
    HistoriesStayTidy(before);
    ListingsAfter(kv, a, mic, op.sub.id);
    if i == |before| {
      NotYetListed(before, a, mic);
    } else {
      assert before[i] == attempts[i];
      StaysOnRecord(kv, before, a, op.key, op.sub);
      ListedAsOftenAsNamed(before, i, mic);
    }
  }

  lemma NotYetListed(before: seq<Attempt>, a: Attempt, mic: Mic)
    requires FreshIds(before + [a]) && a.op.Subscribe? && Tidy(Replay(EMPTY, before), before)
    ensures Listings(TargetsOf(Replay(EMPTY, before), mic), a.op.sub.id) == 0
  {
    var kv, id := Replay(EMPTY, before), a.op.sub.id;
    assert (before + [a])[|before|] == a;
    forall j | 0 <= j < |before| && before[j].op.Subscribe?
      ensures before[j].op.sub.id != id
    {
      assert (before + [a])[j] == before[j];
    }
    ListedNever(TargetsOf(kv, mic), id);
    forall t | t in TargetsOf(kv, mic)
      ensures t.id != id
    {
      assert Indexed(kv, t.keyHash, t.id, mic);
    }
  }

  /** Every target that is listed is the one that some subscription made, in a market that it names. */
  lemma {:induction false} TargetsWereSubscribed(attempts: seq<Attempt>, mic: Mic, t: Target) returns (i: nat)
    requires t in TargetsOf(Replay(EMPTY, attempts), mic)
    ensures i < |attempts| && attempts[i].op.Subscribe? && mic in attempts[i].op.sub.mics
    ensures var op := attempts[i].op; t == Target(op.sub.id, op.key, op.sub.url, op.sub.secret)
    decreases |attempts|
  {
    var before, a := attempts[..|attempts| - 1], attempts[|attempts| - 1];
    var kv := Replay(EMPTY, before);
    var n := Reached(kv, a);
    if t in TargetsOf(kv, mic) {
      i := TargetsWereSubscribed(before, mic, t);
      assert attempts[i] == before[i];
    } else {
      i := |before|;
      match a.op {
        case Subscribe(key, sub) =>
          PushedContents(kv, sub.mics[..n - 1], Target(sub.id, key, sub.url, sub.secret), mic, t);
        case Delete(key, id) =>
          TargetAfter(kv, key, id, MarketsOf(kv, a.op)[..n - 1], mic, t);
      }
    }
  }

  /** So the dispatcher lists it once exactly when the puts of its subscription named that market once. */
  lemma ListedOnceExactlyWhenNamedOnce(attempts: seq<Attempt>, i: nat, mic: Mic)
    requires FreshIds(attempts) && i < |attempts| && attempts[i].op.Subscribe?
    requires OnRecord(Replay(EMPTY, attempts), attempts[i].op.key, attempts[i].op.sub)
    ensures ListedOnce(TargetsOf(Replay(EMPTY, attempts), mic), attempts[i].op.sub.id)
            <==> Named(Written(attempts[i]), mic) == 1
  {
    ListedAsOftenAsNamed(attempts, i, mic);
    ListedOnceIsOneListing(TargetsOf(Replay(EMPTY, attempts), mic), attempts[i].op.sub.id);
  }

  /** The pass reads the list of `mic` as that history leaves it, with the `i`-th request's webhook on record. */
  predicate ReadsAfter(p: Pass, mic: Mic, attempts: seq<Attempt>, i: nat, a: Attempt)
    requires a.op.Subscribe?
  {
    && FreshIds(attempts) && i < |attempts| && attempts[i] == a
    && OnRecord(Replay(EMPTY, attempts), a.op.key, a.op.sub)
    && forall r :: 0 <= r < |p.rows| && p.rows[r].mic == mic ==>
         p.rows[r].targets == TargetsOf(Replay(EMPTY, attempts), mic)
  }

  /**
   Main result, from the subscription to what is heard: while a webhook that names a
   market once stays on record, whatever else is subscribed and deleted between the
   passes, it hears exactly the steps of the destuttered samples.
   */
  lemma SubscriberHearsTheMarket(last: map<Mic, Status>, passes: seq<Pass>, histories: seq<seq<Attempt>>,
                                 mic: Mic, i: nat, a: Attempt)
    requires a.op.Subscribe? && Named(Written(a), mic) == 1
    requires WellFormed(passes) && |histories| == |passes|
    requires forall n :: 0 <= n < |passes| ==> ReadsAfter(passes[n], mic, histories[n], i, a)
    ensures HeardOver(last, passes, mic, a.op.sub.id) == Steps(Destutter(Stored(last, mic) + Sampled(passes, mic)))
  {
    forall p, r | p in passes && 0 <= r < |p.rows| && p.rows[r].mic == mic
      ensures ListedOnce(p.rows[r].targets, a.op.sub.id)
    {
      var n :| 0 <= n < |passes| && passes[n] == p;
      assert ReadsAfter(passes[n], mic, histories[n], i, a);
      ListedOnceExactlyWhenNamedOnce(histories[n], i, mic);
    }
    HearsDestutteredSamples(last, passes, mic, a.op.sub.id);
  }
}
