/**
 The WebhookDispatcher Durable Object: one alarm pass over the markets, and what
 a subscriber hears over a whole sequence of passes.
 */
module WebhookDispatching {
  import opened Options
  import opened WebhookDelivery

  type Mic = string
  type Status = string

  const PERIOD := 60_000

  /** The KV override of a market; `expires` is None when absent or not a date. */
  datatype Override =
    | NoOverride
    | Unparsable
    | Override(status: Option<Status>, expires: Option<int>)

  /**
   What a pass meets at one market. `schedule` and `override` are None when the
   computation or the KV read throws; `targets` is what the fan-out index would return.
   */
  datatype Row = Row(
    mic: Mic,
    schedule: Option<Status>,
    override: Option<Override>,
    targets: seq<Target>)

  datatype Event = Event(mic: Mic, target: Target, previous: Status, current: Status, at: int)

  /** The status of a market during a pass, None when it is skipped. */
  function CurrentStatus(row: Row, now: int): Option<Status> {
    if row.schedule == None || row.override == None then None
    else
      match row.override.value
      case NoOverride => row.schedule
      case Unparsable => row.schedule
      case Override(status, expires) =>
        if expires.Some? && expires.value > now then Some(status.GetOr(row.schedule.value)) else row.schedule
  }

  function Fan(mic: Mic, targets: seq<Target>, previous: Status, current: Status, at: int): seq<Event> {
    seq(|targets|, i requires 0 <= i < |targets| => Event(mic, targets[i], previous, current, at))
  }

  function RowState(last: map<Mic, Status>, row: Row, now: int): map<Mic, Status> {
    var current := CurrentStatus(row, now);
    if current == None then last else last[row.mic := current.value]
  }

  function RowEvents(last: map<Mic, Status>, row: Row, now: int): seq<Event> {
    var current := CurrentStatus(row, now);
    if current.Some? && row.mic in last && last[row.mic] != current.value
    then Fan(row.mic, row.targets, last[row.mic], current.value, now)
    else []
  }

  function PassState(last: map<Mic, Status>, rows: seq<Row>, now: int): map<Mic, Status> {
    if rows == [] then last
    else RowState(PassState(last, rows[..|rows| - 1], now), rows[|rows| - 1], now)
  }

  function PassEvents(last: map<Mic, Status>, rows: seq<Row>, now: int): seq<Event> {
    if rows == [] then []
    else
      var before := rows[..|rows| - 1];
      PassEvents(last, before, now) + RowEvents(PassState(last, before, now), rows[|rows| - 1], now)
  }

  class WebhookDispatcher {
    var lastState: map<Mic, Status>
    var alarm: Option<int>

    constructor ()
      ensures lastState == map[] && alarm == None
    {
      lastState, alarm := map[], None;
    }

    /** `fetch` on /bootstrap. */
    method Bootstrap(clock: int)
      modifies this`alarm
      ensures alarm == if old(alarm) == None then Some(clock + 60_000) else old(alarm)
    {
      var existing := alarm;
      if existing == None {
        alarm := Some(clock + PERIOD);
      }
    }

    /** The status of one market, from its schedule and the override. */
    method SampleStatus(row: Row, now: int) returns (status: Option<Status>)
      ensures status == CurrentStatus(row, now)
    {
      if row.schedule == None || row.override == None {
        return None;
      }
      var overridden := row.override.value;
      if overridden.Override? && overridden.expires.Some? && overridden.expires.value > now {
        status := Some(overridden.status.GetOr(row.schedule.value));
      } else {
        status := row.schedule;
      }
    }

    /** The loop over the targets of one market. */
    method Notify(row: Row, previous: Status, current: Status, now: int) returns (sent: seq<Event>)
      ensures sent == Fan(row.mic, row.targets, previous, current, now)
    {
      sent := [];
      for k := 0 to |row.targets|
        invariant sent == Fan(row.mic, row.targets[..k], previous, current, now)
      {
        sent := sent + [Event(row.mic, row.targets[k], previous, current, now)];
      }
      assert row.targets[..|row.targets|] == row.targets;
    }

    /** A pass that no exception cuts short; `done` is the clock when it reschedules itself. */
    method Alarm(rows: seq<Row>, now: int, done: int) returns (deliveries: seq<Event>)
      modifies this
      ensures lastState == PassState(old(lastState), rows, now)
      ensures deliveries == PassEvents(old(lastState), rows, now)
      ensures alarm == Some(done + 60_000)
    {
      ghost var before := lastState;
      deliveries := [];
      for i := 0 to |rows|
        invariant lastState == PassState(before, rows[..i], now)
        invariant deliveries == PassEvents(before, rows[..i], now)
      {
        assert rows[..i + 1][..i] == rows[..i];
        var sent := VisitMarket(rows[i], now);
        deliveries := deliveries + sent;
      }
      assert rows[..|rows|] == rows;
      alarm := Some(done + PERIOD);
    }

    /** The body of the loop over the markets. */
    method VisitMarket(row: Row, now: int) returns (sent: seq<Event>)
      modifies this`lastState
      ensures lastState == RowState(old(lastState), row, now)
      ensures sent == RowEvents(old(lastState), row, now)
    {
      var currentStatus := SampleStatus(row, now);
      if currentStatus == None {
        return [];
      }
      var last := if row.mic in lastState then Some(lastState[row.mic]) else None;
      lastState := lastState[row.mic := currentStatus.value];
      if last == None || last == currentStatus {
        return [];
      }
      if |row.targets| == 0 {
        return [];
      }
      sent := Notify(row, last.value, currentStatus.value, now);
    }
  }

  // ----- what one subscriber hears -----

  datatype Pass = Pass(rows: seq<Row>, now: int)

  datatype Change = Change(previous: Status, current: Status)

  function Heard(events: seq<Event>, mic: Mic, id: string): seq<Change> {
    if events == [] then []
    else
      var e := events[|events| - 1];
      Heard(events[..|events| - 1], mic, id)
      + if e.mic == mic && e.target.id == id then [Change(e.previous, e.current)] else []
  }

  function HeardOver(last: map<Mic, Status>, passes: seq<Pass>, mic: Mic, id: string): seq<Change>
    decreases |passes|
  {
    if passes == [] then []
    else
      var p := passes[0];
      Heard(PassEvents(last, p.rows, p.now), mic, id)
      + HeardOver(PassState(last, p.rows, p.now), passes[1..], mic, id)
  }

  /** Each market is visited once a pass: MARKET_CONFIGS is an object, its keys are distinct. */
  predicate OncePerMarket(rows: seq<Row>) {
    forall i, j :: 0 <= i < j < |rows| ==> rows[i].mic != rows[j].mic
  }

  predicate ListedOnce(targets: seq<Target>, id: string) {
    exists k :: 0 <= k < |targets| && targets[k].id == id
                && forall j :: 0 <= j < |targets| && targets[j].id == id ==> j == k
  }

  /** `id` is in the fan-out list of `mic` all through, once. */
  predicate Subscribed(passes: seq<Pass>, mic: Mic, id: string) {
    forall p, i :: p in passes && 0 <= i < |p.rows| && p.rows[i].mic == mic ==> ListedOnce(p.rows[i].targets, id)
  }

  predicate WellFormed(passes: seq<Pass>) {
    forall p :: p in passes ==> OncePerMarket(p.rows)
  }

  /** The statuses sampled for a market, skipped passes left out. */
  function SampledIn(rows: seq<Row>, now: int, mic: Mic): seq<Status> {
    if rows == [] then []
    else
      var row := rows[|rows| - 1];
      var status := CurrentStatus(row, now);
      SampledIn(rows[..|rows| - 1], now, mic)
      + if row.mic == mic && status.Some? then [status.value] else []
  }

  function Sampled(passes: seq<Pass>, mic: Mic): seq<Status> {
    if passes == [] then [] else SampledIn(passes[0].rows, passes[0].now, mic) + Sampled(passes[1..], mic)
  }

  /** A sequence without its stutters. */
  function Destutter(xs: seq<Status>): seq<Status> {
    if |xs| < 2 then xs
    else if xs[0] == xs[1] then Destutter(xs[1..])
    else [xs[0]] + Destutter(xs[1..])
  }

  /** The steps from each element to the next. */
  function Steps(xs: seq<Status>): seq<Change> {
    if |xs| < 2 then [] else [Change(xs[0], xs[1])] + Steps(xs[1..])
  }

  function Stored(last: map<Mic, Status>, mic: Mic): seq<Status> {
    if mic in last then [last[mic]] else []
  }

  lemma HeardAppend(a: seq<Event>, b: seq<Event>, mic: Mic, id: string)
    ensures Heard(a + b, mic, id) == Heard(a, mic, id) + Heard(b, mic, id)
  {
    if b == [] {
      assert a + b == a;
    } else {
      assert (a + b)[..|a + b| - 1] == a + b[..|b| - 1];
      HeardAppend(a, b[..|b| - 1], mic, id);
    }
  }

  lemma {:induction false} HeardElsewhere(events: seq<Event>, mic: Mic, id: string)
    requires forall e :: e in events ==> e.mic != mic || e.target.id != id
    ensures Heard(events, mic, id) == []
  {
    if events == [] {
    } else {
      HeardElsewhere(events[..|events| - 1], mic, id);
    }
  }

  lemma HeardOnce(events: seq<Event>, k: nat, mic: Mic, id: string)
    requires k < |events| && events[k].mic == mic && events[k].target.id == id
    requires forall j :: 0 <= j < |events| && j != k ==> events[j].target.id != id
    ensures Heard(events, mic, id) == [Change(events[k].previous, events[k].current)]
  {
    var before, after := events[..k], events[k + 1..];
    HeardElsewhere(before, mic, id);
    HeardElsewhere(after, mic, id);
    HeardAppend(before + [events[k]], after, mic, id);
    assert (before + [events[k]])[..k] == before;
    assert events == before + [events[k]] + after;
  }

  /** A subscriber listed once hears a fan-out once. */
  lemma HeardInFan(mic: Mic, targets: seq<Target>, p: Status, c: Status, at: int, id: string)
    requires ListedOnce(targets, id)
    ensures Heard(Fan(mic, targets, p, c, at), mic, id) == [Change(p, c)]
  {
    var k :| 0 <= k < |targets| && targets[k].id == id
             && forall j :: 0 <= j < |targets| && targets[j].id == id ==> j == k;
    HeardOnce(Fan(mic, targets, p, c, at), k, mic, id);
  }

  lemma RowElsewhere(last: map<Mic, Status>, row: Row, now: int, mic: Mic, id: string)
    requires row.mic != mic
    ensures Stored(RowState(last, row, now), mic) == Stored(last, mic)
    ensures Heard(RowEvents(last, row, now), mic, id) == []
  {
    HeardElsewhere(RowEvents(last, row, now), mic, id);
  }

  lemma {:induction false} NotSampledElsewhere(rows: seq<Row>, now: int, mic: Mic)
    requires forall i :: 0 <= i < |rows| ==> rows[i].mic != mic
    ensures SampledIn(rows, now, mic) == []
  {
    if rows == [] {
    } else {
      NotSampledElsewhere(rows[..|rows| - 1], now, mic);
    }
  }

  lemma {:induction false} PassLeavesOthers(last: map<Mic, Status>, rows: seq<Row>, now: int, mic: Mic, id: string)
    requires forall i :: 0 <= i < |rows| ==> rows[i].mic != mic
    ensures Stored(PassState(last, rows, now), mic) == Stored(last, mic)
    ensures Heard(PassEvents(last, rows, now), mic, id) == []
  {
    if rows == [] {
    } else {
      var before, row := rows[..|rows| - 1], rows[|rows| - 1];
      var mid := PassState(last, before, now);
      PassLeavesOthers(last, before, now, mic, id);
      RowElsewhere(mid, row, now, mic, id);
      HeardAppend(PassEvents(last, before, now), RowEvents(mid, row, now), mic, id);
    }
  }

  /** What visiting a market that has not been visited in this pass adds. */
  lemma RowOnMarket(last: map<Mic, Status>, row: Row, now: int, id: string)
    requires ListedOnce(row.targets, id)
    ensures var status := CurrentStatus(row, now);
            var xs := if status.Some? then [status.value] else [];
            Heard(RowEvents(last, row, now), row.mic, id) == Steps(Destutter(Stored(last, row.mic) + xs))
  {
    var status := CurrentStatus(row, now);
    if status.Some? && row.mic in last && last[row.mic] != status.value {
      var two := [last[row.mic], status.value];
      HeardInFan(row.mic, row.targets, last[row.mic], status.value, now, id);
      assert Stored(last, row.mic) + [status.value] == two;
      assert two[1..] == [status.value];
    }
  }

  /** What a pass adds for one market, and what it leaves stored. */
  lemma {:induction false} PassOnMarket(last: map<Mic, Status>, rows: seq<Row>, now: int, mic: Mic, id: string)
    requires OncePerMarket(rows)
    requires forall i :: 0 <= i < |rows| && rows[i].mic == mic ==> ListedOnce(rows[i].targets, id)
    ensures |SampledIn(rows, now, mic)| <= 1
    ensures var xs := SampledIn(rows, now, mic);
            Stored(PassState(last, rows, now), mic) == if xs == [] then Stored(last, mic) else xs
    ensures Heard(PassEvents(last, rows, now), mic, id)
            == Steps(Destutter(Stored(last, mic) + SampledIn(rows, now, mic)))
  {
    if rows == [] {
      assert Stored(last, mic) + SampledIn(rows, now, mic) == Stored(last, mic);
    } else {
      var before, row := rows[..|rows| - 1], rows[|rows| - 1];
      var mid := PassState(last, before, now);
      var more := RowEvents(mid, row, now);
      HeardAppend(PassEvents(last, before, now), more, mic, id);
      if row.mic == mic {
        PassLeavesOthers(last, before, now, mic, id);
        NotSampledElsewhere(before, now, mic);
        RowOnMarket(mid, row, now, id);
        assert Heard(PassEvents(last, rows, now), mic, id) == Heard(more, mic, id);
      } else {
        PassOnMarket(last, before, now, mic, id);
        RowElsewhere(mid, row, now, mic, id);
      }
    }
  }

  lemma {:induction false} StepsSplit(xs: seq<Status>, x: Status, ys: seq<Status>)
    requires |xs| <= 1
    ensures Steps(Destutter(xs + [x])) + Steps(Destutter([x] + ys)) == Steps(Destutter(xs + [x] + ys))
  {
    if xs == [] {
      assert xs + [x] == [x] && xs + [x] + ys == [x] + ys;
    } else {
      var all := xs + [x] + ys;
      assert all[1..] == [x] + ys;
      assert (xs + [x])[1..] == [x];
      DestutterKeepsHead([x] + ys);
      if xs[0] != x {
        assert ([xs[0]] + Destutter([x] + ys))[1..] == Destutter([x] + ys);
        assert [xs[0], x][1..] == [x];
      }
    }
  }

  lemma SamplesSplit(stored: seq<Status>, xs: seq<Status>, ys: seq<Status>)
    requires |stored| <= 1 && |xs| <= 1
    ensures Steps(Destutter(stored + xs)) + Steps(Destutter((if xs == [] then stored else xs) + ys))
            == Steps(Destutter(stored + (xs + ys)))
  {
    if xs == [] {
      assert stored + xs == stored && xs + ys == ys;
    } else {
      StepsSplit(stored, xs[0], ys);
      assert xs == [xs[0]];
      assert stored + [xs[0]] + ys == stored + (xs + ys);
    }
  }

  lemma {:induction false} DestutterKeepsHead(xs: seq<Status>)
    requires xs != []
    ensures Destutter(xs) != [] && Destutter(xs)[0] == xs[0]
  {
    if |xs| == 1 {
    } else {
      DestutterKeepsHead(xs[1..]);
    }
  }

  /**
   Main result: over any sequence of completed passes, a subscriber listed
   throughout hears exactly the steps of the sampled statuses with the stutters
   removed, starting from what was stored. A skipped sample leaves no trace.
   */
  lemma {:induction false} HearsDestutteredSamples(last: map<Mic, Status>, passes: seq<Pass>, mic: Mic, id: string)
    requires WellFormed(passes) && Subscribed(passes, mic, id)
    ensures HeardOver(last, passes, mic, id) == Steps(Destutter(Stored(last, mic) + Sampled(passes, mic)))
    decreases |passes|
  {
    if passes == [] {
      assert Stored(last, mic) + Sampled(passes, mic) == Stored(last, mic);
    } else {
      var p := passes[0];
      assert p in passes;
      var next := PassState(last, p.rows, p.now);
      var xs, ys := SampledIn(p.rows, p.now, mic), Sampled(passes[1..], mic);
      PassOnMarket(last, p.rows, p.now, mic, id);
      HearsDestutteredSamples(next, passes[1..], mic, id);
      SamplesSplit(Stored(last, mic), xs, ys);
    }
  }

  lemma {:induction false} StepsOfDestuttered(xs: seq<Status>, k: nat)
    requires k < |Steps(Destutter(xs))|
    ensures var cs := Steps(Destutter(xs));
            && cs[k].previous != cs[k].current
            && (k > 0 ==> cs[k].previous == cs[k - 1].current)
  {
    var ds := Destutter(xs);
    if xs[0] == xs[1] {
      StepsOfDestuttered(xs[1..], k);
    } else {
      DestutterKeepsHead(xs[1..]);
      assert ds[1..] == Destutter(xs[1..]);
      if k > 0 {
        StepsOfDestuttered(xs[1..], k - 1);
        if k == 1 {
          assert Steps(ds[1..])[0].previous == ds[1];
        }
      }
    }
  }

  /** Every event is a change, and takes up where the one before it left off. */
  lemma EventsFormAChain(last: map<Mic, Status>, passes: seq<Pass>, mic: Mic, id: string, k: nat)
    requires WellFormed(passes) && Subscribed(passes, mic, id)
    requires k < |HeardOver(last, passes, mic, id)|
    ensures var heard := HeardOver(last, passes, mic, id);
            && heard[k].previous != heard[k].current
            && (k > 0 ==> heard[k].previous == heard[k - 1].current)
  {
    HearsDestutteredSamples(last, passes, mic, id);
    StepsOfDestuttered(Stored(last, mic) + Sampled(passes, mic), k);
  }

  // ----- what is sampled, from schedule and override alone -----

  /** When the override of a row holds: it names a status and an expiry that is still to come. */
  ghost predicate Live(row: Row, now: int, x: Status) {
    exists t: int :: now < t && row.override == Some(Override(Some(x), Some(t)))
  }

  /** A market is skipped exactly when a read throws, samples a live override, and its schedule otherwise. */
  lemma SampleOfARow(row: Row, now: int)
    ensures CurrentStatus(row, now) == None <==> row.schedule == None || row.override == None
    ensures forall x :: row.schedule.Some? && Live(row, now, x) ==> CurrentStatus(row, now) == Some(x)
    ensures row.schedule.Some? && row.override.Some? && (forall x :: !Live(row, now, x)) ==>
              CurrentStatus(row, now) == row.schedule
  {
    if row.schedule.Some? && row.override.Some? && row.override.value.Override? {
      var o := row.override.value;
      if o.status.Some? && o.expires.Some? && now < o.expires.value {
        assert Live(row, now, o.status.value);
      }
    }
  }

  lemma {:induction false} SampledOnce(rows: seq<Row>, now: int, i: nat)
    requires OncePerMarket(rows) && i < |rows|
    ensures SampledIn(rows, now, rows[i].mic)
            == if CurrentStatus(rows[i], now) == None then [] else [CurrentStatus(rows[i], now).value]
    decreases |rows|
  {
    var before := rows[..|rows| - 1];
    if i == |rows| - 1 {
      NotSampledElsewhere(before, now, rows[i].mic);
    } else {
      SampledOnce(before, now, i);
    }
  }

  /** The pass visits `mic`, whose schedule says `a`, under an override to `x` until `t`. */
  predicate Overridden(p: Pass, mic: Mic, a: Status, x: Status, t: int) {
    exists i :: 0 <= i < |p.rows| && p.rows[i].mic == mic
                && p.rows[i].schedule == Some(a) && p.rows[i].override == Some(Override(Some(x), Some(t)))
  }

  function Times(x: Status, n: nat): seq<Status> {
    if n == 0 then [] else [x] + Times(x, n - 1)
  }

  lemma OverriddenSample(p: Pass, mic: Mic, a: Status, x: Status, t: int)
    requires OncePerMarket(p.rows) && Overridden(p, mic, a, x, t)
    ensures SampledIn(p.rows, p.now, mic) == [if p.now < t then x else a]
  {
    var i :| 0 <= i < |p.rows| && p.rows[i].mic == mic
             && p.rows[i].schedule == Some(a) && p.rows[i].override == Some(Override(Some(x), Some(t)));
    SampledOnce(p.rows, p.now, i);
    SampleOfARow(p.rows[i], p.now);
    if p.now < t {
      assert Live(p.rows[i], p.now, x);
    }
  }

  /** Passes of which the first `k` run before `t` and the others at or after it. */
  predicate Turns(passes: seq<Pass>, k: nat, t: int) {
    && k <= |passes|
    && (forall i :: 0 <= i < k ==> passes[i].now < t)
    && (forall i :: k <= i < |passes| ==> passes[i].now >= t)
  }

  lemma OneMoreSample(a: Status, x: Status, k: nat, m: nat)
    requires k + m > 0
    ensures k > 0 ==> Times(x, k) + Times(a, m) == [x] + (Times(x, k - 1) + Times(a, m))
    ensures k == 0 ==> Times(x, k) + Times(a, m) == [a] + (Times(x, 0) + Times(a, m - 1))
  {
  }

  predicate Samples(p: Pass, mic: Mic, x: Status) {
    SampledIn(p.rows, p.now, mic) == [x]
  }

  lemma SampledFirst(passes: seq<Pass>, mic: Mic, x: Status)
    requires passes != [] && Samples(passes[0], mic, x)
    ensures Sampled(passes, mic) == [x] + Sampled(passes[1..], mic)
  {
  }

  lemma {:induction false} SampledPassByPass(passes: seq<Pass>, k: nat, mic: Mic, a: Status, x: Status)
    requires k <= |passes|
    requires forall i :: 0 <= i < |passes| ==> Samples(passes[i], mic, if i < k then x else a)
    ensures Sampled(passes, mic) == Times(x, k) + Times(a, |passes| - k)
    decreases |passes|
  {
    if passes == [] {
    } else {
      var k' := if k > 0 then k - 1 else 0;
      assert forall i :: 0 <= i < |passes[1..]| ==> passes[1..][i] == passes[i + 1];
      SampledPassByPass(passes[1..], k', mic, a, x);
      SampledFirst(passes, mic, if k > 0 then x else a);
      OneMoreSample(a, x, k, |passes| - k);
    }
  }

  /** A market with schedule `a` and an override to `x` until `t` samples `x` before `t` and `a` from then on. */
  lemma OverrideIsSampledUntilItExpires(passes: seq<Pass>, k: nat, mic: Mic, a: Status, x: Status, t: int)
    requires WellFormed(passes) && Turns(passes, k, t)
    requires forall p :: p in passes ==> Overridden(p, mic, a, x, t)
    ensures Sampled(passes, mic) == Times(x, k) + Times(a, |passes| - k)
  {
    forall i | 0 <= i < |passes|
      ensures Samples(passes[i], mic, if i < k then x else a)
    {
      assert passes[i] in passes;
      OverriddenSample(passes[i], mic, a, x, t);
    }
    SampledPassByPass(passes, k, mic, a, x);
  }

  lemma {:induction false} StutterIsOne(x: Status, n: nat, rest: seq<Status>)
    requires n > 0
    ensures Destutter(Times(x, n) + rest) == Destutter([x] + rest)
  {
    if n == 1 {
      assert Times(x, 1) == [x];
    } else {
      var more := Times(x, n - 1) + rest;
      assert Times(x, n) + rest == [x] + more;
      assert more[0] == x && ([x] + more)[1..] == more;
      StutterIsOne(x, n - 1, rest);
    }
  }

  lemma ThereAndBack(a: Status, x: Status, k: nat, m: nat)
    requires a != x && k > 0 && m > 0
    ensures Destutter([a] + (Times(x, k) + Times(a, m))) == [a, x, a]
  {
    var tail := Times(x, k) + Times(a, m);
    StutterIsOne(x, k, Times(a, m));
    StutterIsOne(a, m, []);
    assert Times(a, m) + [] == Times(a, m) && [a] + [] == [a];
    assert tail[0] == x && ([a] + tail)[1..] == tail;
    assert ([x] + Times(a, m))[1..] == Times(a, m) && Times(a, m)[0] == a;
    assert Destutter([x] + Times(a, m)) == [x] + [a];
  }

  lemma TwoSteps(a: Status, x: Status)
    ensures Steps([a, x, a]) == [Change(a, x), Change(x, a)]
  {
    assert [a, x, a][1..] == [x, a] && [x, a][1..] == [a];
    assert Steps([x, a]) == [Change(x, a)] + Steps([a]);
  }

  /**
   Main result: a subscriber of a market that stood at its schedule hears an override
   come when the first pass meets it, and go with the first pass after its expiry, and nothing else.
   */
  lemma OverrideComesAndGoes(last: map<Mic, Status>, passes: seq<Pass>, k: nat, mic: Mic, id: string,
                             a: Status, x: Status, t: int)
    requires WellFormed(passes) && Subscribed(passes, mic, id) && Turns(passes, k, t)
    requires forall p :: p in passes ==> Overridden(p, mic, a, x, t)
    requires mic in last && last[mic] == a && a != x && 0 < k < |passes|
    ensures HeardOver(last, passes, mic, id) == [Change(a, x), Change(x, a)]
  {
    HearsDestutteredSamples(last, passes, mic, id);
    OverrideIsSampledUntilItExpires(passes, k, mic, a, x, t);
    ThereAndBack(a, x, k, |passes| - k);
    assert Stored(last, mic) == [a];
    TwoSteps(a, x);
  }

  /** The schedules that the passes read for a market, those skipped left out. */
  function SchedulesIn(rows: seq<Row>, mic: Mic): seq<Status> {
    if rows == [] then []
    else
      var row := rows[|rows| - 1];
      SchedulesIn(rows[..|rows| - 1], mic)
      + if row.mic == mic && row.schedule.Some? && row.override.Some? then [row.schedule.value] else []
  }

  /** Without a live override a pass samples the schedule. */
  lemma {:induction false} DeadOverridesLeaveTheSchedule(rows: seq<Row>, now: int, mic: Mic)
    requires forall i, x :: 0 <= i < |rows| && rows[i].mic == mic ==> !Live(rows[i], now, x)
    ensures SampledIn(rows, now, mic) == SchedulesIn(rows, mic)
  {
    if rows == [] {
    } else {
      DeadOverridesLeaveTheSchedule(rows[..|rows| - 1], now, mic);
      SampleOfARow(rows[|rows| - 1], now);
    }
  }

  /** One that is unparsable, or has no status or no readable expiry, is not live. */
  lemma DeadOverrides(row: Row, now: int, x: Status)
    requires row.override == Some(NoOverride) || row.override == Some(Unparsable)
             || (exists s: Option<Status> :: row.override == Some(Override(s, None)))
             || (exists e: Option<int> :: row.override == Some(Override(None, e)))
    ensures !Live(row, now, x)
  {
  }

  /** Every delivery goes to a target its market listed, tells the status sampled there and is timed by its pass. */
  lemma {:induction false} DeliveriesAreAddressed(last: map<Mic, Status>, rows: seq<Row>, now: int, e: Event)
    requires e in PassEvents(last, rows, now)
    ensures e.at == now && e.previous != e.current
    ensures exists i :: 0 <= i < |rows| && rows[i].mic == e.mic && e.target in rows[i].targets
                        && CurrentStatus(rows[i], now) == Some(e.current)
  {
    if rows == [] {
    } else {
      var before, row := rows[..|rows| - 1], rows[|rows| - 1];
      if e in PassEvents(last, before, now) {
        DeliveriesAreAddressed(last, before, now, e);
        var i :| 0 <= i < |before| && before[i].mic == e.mic && e.target in before[i].targets
                 && CurrentStatus(before[i], now) == Some(e.current);
        assert rows[i] == before[i];
      } else {
        assert e in RowEvents(PassState(last, before, now), row, now);
        assert rows[|rows| - 1] == row;
      }
    }
  }
}
