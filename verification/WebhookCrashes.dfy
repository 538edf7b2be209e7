/**
 The alarm pass with its awaits taken apart. Every action is what happens between
 two awaits; a pass may crash at any of them, and the platform then runs the pass
 again from the top. Storage and the calls already made survive a crash.
 */
module WebhookCrashes {
  import opened Options
  import opened WebhookDelivery
  import opened WebhookDispatching

  /** A change of a stored status: what the write of `last_state` recorded. */
  datatype Transition = Transition(mic: Mic, previous: Status, current: Status)

  /** One fan-out: `deliverWebhook` is called once for each of `targets`. */
  datatype FanOut = FanOut(transition: nat, targets: seq<Target>, at: int)

  datatype Place =
    | Sampling(i: nat)
    | Getting(i: nat, current: Status)
    | Putting(i: nat, current: Status, last: Option<Status>)
    | Listing(i: nat, transition: nat)
    | Signing(i: nat, transition: nat, targets: seq<Target>)

  datatype State = State(
    stored: map<Mic, Status>,
    recorded: seq<Transition>,
    calls: seq<FanOut>,
    place: Place)

  datatype Action =
    | Sample(status: Option<Status>)
    | Get
    | Put
    | List(targets: seq<Target>)
    | SignAndCall(at: int)
    | Settle
    | Crash

  const START := State(map[], [], [], Sampling(0))

  predicate Enabled(mics: seq<Mic>, s: State, a: Action) {
    match a
    case Sample(_) => s.place.Sampling? && s.place.i < |mics|
    case Get => s.place.Getting? && s.place.i < |mics|
    case Put => s.place.Putting? && s.place.i < |mics|
    case List(_) => s.place.Listing?
    case SignAndCall(_) => s.place.Signing?
    case Settle => s.place.Sampling? && s.place.i == |mics|
    case Crash => true
  }

  function Apply(mics: seq<Mic>, s: State, a: Action): State
    requires Enabled(mics, s, a)
  {
    match a
    case Sample(status) =>
      s.(place := if status.Some? then Getting(s.place.i, status.value) else Sampling(s.place.i + 1))
    case Get =>
      var mic := mics[s.place.i];
      s.(place := Putting(s.place.i, s.place.current, if mic in s.stored then Some(s.stored[mic]) else None))
    case Put =>
      var mic, current, last := mics[s.place.i], s.place.current, s.place.last;
      var written := s.(stored := s.stored[mic := current]);
      if last == None || last.value == current then
        written.(place := Sampling(s.place.i + 1))
      else
        written.(recorded := s.recorded + [Transition(mic, last.value, current)],
                 place := Listing(s.place.i, |s.recorded|))
    case List(targets) =>
      s.(place := if targets == [] then Sampling(s.place.i + 1)
                  else Signing(s.place.i, s.place.transition, targets))
    case SignAndCall(at) =>
      s.(calls := s.calls + [FanOut(s.place.transition, s.place.targets, at)],
         place := Sampling(s.place.i + 1))
    case Settle => s.(place := Sampling(0))
    case Crash => s.(place := Sampling(0))
  }

  predicate Run(mics: seq<Mic>, s: State, acts: seq<Action>)
    decreases |acts|
  {
    acts == [] || (Enabled(mics, s, acts[0]) && Run(mics, Apply(mics, s, acts[0]), acts[1..]))
  }

  function Final(mics: seq<Mic>, s: State, acts: seq<Action>): State
    requires Run(mics, s, acts)
    decreases |acts|
  {
    if acts == [] then s else Final(mics, Apply(mics, s, acts[0]), acts[1..])
  }

  // ----- at most once -----

  /** The transition a pass is about to announce. */
  predicate Holds(p: Place, n: nat) {
    (p.Listing? || p.Signing?) && p.transition == n
  }

  predicate Announced(s: State, n: nat) {
    exists k :: 0 <= k < |s.calls| && s.calls[k].transition == n
  }

  predicate Changes(t: Transition) {
    t.previous != t.current
  }

  predicate Inv(mics: seq<Mic>, s: State) {
    && (forall j, k :: 0 <= j < k < |s.calls| ==> s.calls[j].transition < s.calls[k].transition)
    && (forall k :: 0 <= k < |s.calls| ==> s.calls[k].transition < |s.recorded|)
    && (s.place.Listing? || s.place.Signing? ==>
          && s.place.transition == |s.recorded| - 1
          && forall k :: 0 <= k < |s.calls| ==> s.calls[k].transition < s.place.transition)
    && (s.place.Putting? ==>
          s.place.i < |mics|
          && s.place.last == if mics[s.place.i] in s.stored then Some(s.stored[mics[s.place.i]]) else None)
    && (forall n :: 0 <= n < |s.recorded| ==> Changes(s.recorded[n]))
  }

  lemma StepKeepsInv(mics: seq<Mic>, s: State, a: Action)
    requires Inv(mics, s) && Enabled(mics, s, a)
    ensures Inv(mics, Apply(mics, s, a))
  {
  }

  lemma {:induction false} RunKeepsInv(mics: seq<Mic>, s: State, acts: seq<Action>)
    requires Inv(mics, s) && Run(mics, s, acts)
    ensures Inv(mics, Final(mics, s, acts))
    decreases |acts|
  {
    if acts == [] {
    } else {
      StepKeepsInv(mics, s, acts[0]);
      RunKeepsInv(mics, Apply(mics, s, acts[0]), acts[1..]);
    }
  }

  /**
   Main result: wherever passes crash and however often they are rerun, no two
   fan-outs announce the same transition, and what is announced is a change.
   */
  lemma AtMostOneFanOut(mics: seq<Mic>, acts: seq<Action>, j: nat, k: nat)
    requires Run(mics, START, acts)
    requires var s := Final(mics, START, acts); j < |s.calls| && k < |s.calls|
    ensures var s := Final(mics, START, acts);
            && (s.calls[j].transition == s.calls[k].transition ==> j == k)
            && s.calls[j].transition < |s.recorded|
            && Changes(s.recorded[s.calls[j].transition])
  {
    RunKeepsInv(mics, START, acts);
  }

  /**
   The other side: a transition that no pass is about to announce never will be
   from then on. A crash between the write and the fan-out loses it for good.
   */
  lemma {:induction false} WhatIsDroppedStaysDropped(mics: seq<Mic>, s: State, acts: seq<Action>, n: nat)
    requires Inv(mics, s) && Run(mics, s, acts)
    requires n < |s.recorded| && !Holds(s.place, n)
    ensures Announced(Final(mics, s, acts), n) <==> Announced(s, n)
    ensures n < |Final(mics, s, acts).recorded| && Final(mics, s, acts).recorded[n] == s.recorded[n]
    decreases |acts|
  {
    if acts == [] {
    } else {
      var s1 := Apply(mics, s, acts[0]);
      StepKeepsInv(mics, s, acts[0]);
      assert Announced(s1, n) <==> Announced(s, n) by {
        if Announced(s, n) {
          var k :| 0 <= k < |s.calls| && s.calls[k].transition == n;
          assert s1.calls[k] == s.calls[k];
        }
      }
      WhatIsDroppedStaysDropped(mics, s1, acts[1..], n);
    }
  }

  /** From a place that holds a transition, the next steps carry the fan-out through. */
  predicate GoesThrough(p: Place, acts: seq<Action>) {
    if p.Listing? then |acts| >= 2 && acts[0].List? && acts[0].targets != [] && acts[1].SignAndCall?
    else acts != [] && acts[0].SignAndCall?
  }

  lemma SignedOrLost(mics: seq<Mic>, s: State, acts: seq<Action>, n: nat)
    requires Inv(mics, s) && s.place.Signing? && s.place.transition == n && Run(mics, s, acts)
    ensures Announced(Final(mics, s, acts), n) <==> GoesThrough(s.place, acts)
  {
    if acts == [] {
    } else {
      var s1 := Apply(mics, s, acts[0]);
      StepKeepsInv(mics, s, acts[0]);
      WhatIsDroppedStaysDropped(mics, s1, acts[1..], n);
      if acts[0].SignAndCall? {
        assert s1.calls[|s.calls|].transition == n;
      }
    }
  }

  /**
   Main result: a recorded transition is announced in a run exactly when its very
   next steps are the read of a list that is not empty and then the fan-out. A crash
   before either of them, or an empty list, loses it for good.
   */
  lemma AnnouncedExactlyWhenCarriedThrough(mics: seq<Mic>, s: State, acts: seq<Action>, n: nat)
    requires Inv(mics, s) && Holds(s.place, n) && Run(mics, s, acts)
    ensures Announced(Final(mics, s, acts), n) <==> GoesThrough(s.place, acts)
  {
    if s.place.Signing? {
      SignedOrLost(mics, s, acts, n);
    } else if acts == [] {
    } else {
      var s1 := Apply(mics, s, acts[0]);
      StepKeepsInv(mics, s, acts[0]);
      if s1.place.Signing? {
        SignedOrLost(mics, s1, acts[1..], n);
        assert |acts| >= 2 ==> acts[1] == acts[1..][0];
      } else {
        WhatIsDroppedStaysDropped(mics, s1, acts[1..], n);
      }
    }
  }

  // ----- what is recorded, announced or not, is a chain -----

  /** The status that the last recorded transition of a market led to. */
  function LastRecorded(recorded: seq<Transition>, mic: Mic): Option<Status> {
    if recorded == [] then None
    else
      var t := recorded[|recorded| - 1];
      if t.mic == mic then Some(t.current) else LastRecorded(recorded[..|recorded| - 1], mic)
  }

  /** Each transition of a market takes up where the one before it left off. */
  predicate Chained(recorded: seq<Transition>, mic: Mic) {
    recorded == [] ||
    (var t, before := recorded[|recorded| - 1], recorded[..|recorded| - 1];
     Chained(before, mic)
     && (t.mic == mic && LastRecorded(before, mic).Some? ==> t.previous == LastRecorded(before, mic).value))
  }

  ghost predicate ChainInv(s: State, mic: Mic) {
    && Chained(s.recorded, mic)
    && (LastRecorded(s.recorded, mic).Some? ==>
          mic in s.stored && s.stored[mic] == LastRecorded(s.recorded, mic).value)
  }

  lemma StepKeepsChain(mics: seq<Mic>, s: State, a: Action, mic: Mic)
    requires Inv(mics, s) && ChainInv(s, mic) && Enabled(mics, s, a)
    ensures ChainInv(Apply(mics, s, a), mic)
  {
    var s' := Apply(mics, s, a);
    if s'.recorded != s.recorded {
      assert s'.recorded[..|s'.recorded| - 1] == s.recorded;
    }
  }

  /**
   Main result: crashes may drop announcements, but the recorded transitions of a
   market always form a chain that ends in what is stored, so what is announced is a part of it.
   */
  lemma {:induction false} RecordedFormAChain(mics: seq<Mic>, s: State, acts: seq<Action>, mic: Mic)
    requires Inv(mics, s) && ChainInv(s, mic) && Run(mics, s, acts)
    ensures ChainInv(Final(mics, s, acts), mic)
    decreases |acts|
  {
    if acts == [] {
    } else {
      StepKeepsInv(mics, s, acts[0]);
      StepKeepsChain(mics, s, acts[0], mic);
      RecordedFormAChain(mics, Apply(mics, s, acts[0]), acts[1..], mic);
    }
  }

  // ----- a pass without crashes is the alarm of WebhookDispatcher -----

  /** What the awaits of one market come to when none of them crashes. */
  function RowActions(stored: map<Mic, Status>, row: Row, now: int): seq<Action> {
    var status := CurrentStatus(row, now);
    if status == None then [Sample(None)]
    else [Sample(status), Get, Put] + if RowChanges(stored, row, status.value) then FanActions(row, now) else []
  }

  predicate RowChanges(stored: map<Mic, Status>, row: Row, status: Status) {
    row.mic in stored && stored[row.mic] != status
  }

  function FanActions(row: Row, now: int): seq<Action> {
    if row.targets == [] then [List([])] else [List(row.targets), SignAndCall(now)]
  }

  /** The deliveries that a fan-out amounts to. */
  function Announcement(recorded: seq<Transition>, f: FanOut): seq<Event> {
    if f.transition < |recorded| then
      var t := recorded[f.transition];
      Fan(t.mic, f.targets, t.previous, t.current, f.at)
    else []
  }

  function Deliveries(recorded: seq<Transition>, calls: seq<FanOut>): seq<Event> {
    if calls == [] then []
    else Deliveries(recorded, calls[..|calls| - 1]) + Announcement(recorded, calls[|calls| - 1])
  }

  lemma {:induction false} DeliveriesAreStable(recorded: seq<Transition>, recorded': seq<Transition>,
                                               calls: seq<FanOut>)
    requires recorded <= recorded'
    requires forall k :: 0 <= k < |calls| ==> calls[k].transition < |recorded|
    ensures Deliveries(recorded', calls) == Deliveries(recorded, calls)
  {
    if calls == [] {
    } else {
      DeliveriesAreStable(recorded, recorded', calls[..|calls| - 1]);
    }
  }

  lemma {:induction false} RunAppends(mics: seq<Mic>, s: State, a: seq<Action>, b: seq<Action>)
    requires Run(mics, s, a) && Run(mics, Final(mics, s, a), b)
    ensures Run(mics, s, a + b) && Final(mics, s, a + b) == Final(mics, Final(mics, s, a), b)
    decreases |a|
  {
    if a == [] {
      assert a + b == b;
    } else {
      RunAppends(mics, Apply(mics, s, a[0]), a[1..], b);
      assert (a + b)[1..] == a[1..] + b;
    }
  }

  lemma RunOne(mics: seq<Mic>, s: State, a: Action)
    requires Enabled(mics, s, a)
    ensures Run(mics, s, [a]) && Final(mics, s, [a]) == Apply(mics, s, a)
  {
    assert [a][1..] == [];
  }

  lemma RunTwo(mics: seq<Mic>, s: State, a: Action, b: Action)
    requires Enabled(mics, s, a) && Enabled(mics, Apply(mics, s, a), b)
    ensures Run(mics, s, [a, b]) && Final(mics, s, [a, b]) == Apply(mics, Apply(mics, s, a), b)
  {
    RunOne(mics, s, a);
    RunOne(mics, Apply(mics, s, a), b);
    RunAppends(mics, s, [a], [b]);
    assert [a] + [b] == [a, b];
  }

  lemma SampleToPut(mics: seq<Mic>, s: State, status: Status)
    requires s.place.Sampling? && s.place.i < |mics|
    ensures Run(mics, s, [Sample(Some(status)), Get, Put])
    ensures var s' := Final(mics, s, [Sample(Some(status)), Get, Put]);
            var mic := mics[s.place.i];
            && s'.stored == s.stored[mic := status] && s'.calls == s.calls
            && if mic in s.stored && s.stored[mic] != status
               then s'.recorded == s.recorded + [Transition(mic, s.stored[mic], status)]
                    && s'.place == Listing(s.place.i, |s.recorded|)
               else s'.recorded == s.recorded && s'.place == Sampling(s.place.i + 1)
  {
    RunTwo(mics, s, Sample(Some(status)), Get);
    var s2 := Final(mics, s, [Sample(Some(status)), Get]);
    RunOne(mics, s2, Put);
    RunAppends(mics, s, [Sample(Some(status)), Get], [Put]);
    assert [Sample(Some(status)), Get] + [Put] == [Sample(Some(status)), Get, Put];
  }

  lemma ListToCalls(mics: seq<Mic>, s: State, row: Row, now: int)
    requires s.place.Listing?
    ensures Run(mics, s, FanActions(row, now))
    ensures var s' := Final(mics, s, FanActions(row, now));
            && s'.stored == s.stored && s'.recorded == s.recorded && s'.place == Sampling(s.place.i + 1)
            && s'.calls == s.calls + if row.targets == [] then []
                                     else [FanOut(s.place.transition, row.targets, now)]
  {
    if row.targets == [] {
      RunOne(mics, s, List([]));
    } else {
      RunTwo(mics, s, List(row.targets), SignAndCall(now));
    }
  }

  lemma RowPlaces(mics: seq<Mic>, s: State, row: Row, now: int)
    requires s.place.Sampling? && s.place.i < |mics| && row.mic == mics[s.place.i]
    ensures Run(mics, s, RowActions(s.stored, row, now))
    ensures var s' := Final(mics, s, RowActions(s.stored, row, now));
            var status := CurrentStatus(row, now);
            && s'.place == Sampling(s.place.i + 1)
            && s'.stored == RowState(s.stored, row, now)
            && if status.Some? && RowChanges(s.stored, row, status.value)
               then s'.recorded == s.recorded + [Transition(row.mic, s.stored[row.mic], status.value)]
                    && s'.calls == s.calls + if row.targets == [] then []
                                             else [FanOut(|s.recorded|, row.targets, now)]
               else s'.recorded == s.recorded && s'.calls == s.calls
  {
    var status := CurrentStatus(row, now);
    if status == None {
      RunOne(mics, s, Sample(None));
    } else {
      SampleToPut(mics, s, status.value);
      var three := [Sample(status), Get, Put];
      var s3 := Final(mics, s, three);
      if RowChanges(s.stored, row, status.value) {
        ListToCalls(mics, s3, row, now);
        RunAppends(mics, s, three, FanActions(row, now));
      } else {
        assert three + [] == three;
      }
    }
  }

  /** What has been delivered in a state. */
  function Sent(s: State): seq<Event> {
    Deliveries(s.recorded, s.calls)
  }

  lemma RowSends(mics: seq<Mic>, s: State, row: Row, now: int)
    requires Inv(mics, s) && s.place.Sampling? && s.place.i < |mics| && row.mic == mics[s.place.i]
    requires Run(mics, s, RowActions(s.stored, row, now))
    ensures Sent(Final(mics, s, RowActions(s.stored, row, now))) == Sent(s) + RowEvents(s.stored, row, now)
  {
    RowPlaces(mics, s, row, now);
    var s' := Final(mics, s, RowActions(s.stored, row, now));
    DeliveriesAreStable(s.recorded, s'.recorded, s.calls);
    if s'.calls != s.calls {
      assert s'.calls[..|s'.calls| - 1] == s.calls;
    }
  }

  /** `acts` is a crash-free run from `s` to `s'` that does what the alarm promises for `rows`. */
  predicate Performs(mics: seq<Mic>, s: State, acts: seq<Action>, s': State, rows: seq<Row>, now: int) {
    && Crash !in acts && Run(mics, s, acts) && s' == Final(mics, s, acts)
    && s'.place == Sampling(|rows|)
    && s'.stored == PassState(s.stored, rows, now)
    && Sent(s') == Sent(s) + PassEvents(s.stored, rows, now)
  }

  lemma NoCrashInRow(stored: map<Mic, Status>, row: Row, now: int)
    ensures Crash !in RowActions(stored, row, now)
  {
  }

  lemma Regroup(a: seq<Event>, b: seq<Event>, c: seq<Event>)
    ensures a + b + c == a + (b + c)
  {
  }

  lemma PerformsOneMore(mics: seq<Mic>, s: State, acts: seq<Action>, mid: State, rows: seq<Row>, now: int)
      returns (acts': seq<Action>, s': State)
    requires rows != [] && |rows| <= |mics| && rows[|rows| - 1].mic == mics[|rows| - 1]
    requires Inv(mics, mid) && Performs(mics, s, acts, mid, rows[..|rows| - 1], now)
    ensures Performs(mics, s, acts', s', rows, now)
  {
    var before, row := rows[..|rows| - 1], rows[|rows| - 1];
    var more := RowActions(mid.stored, row, now);
    RowPlaces(mics, mid, row, now);
    RowSends(mics, mid, row, now);
    RunAppends(mics, s, acts, more);
    NoCrashInRow(mid.stored, row, now);
    Regroup(Sent(s), PassEvents(s.stored, before, now), RowEvents(mid.stored, row, now));
    acts', s' := acts + more, Final(mics, mid, more);
  }

  /**
   Main result: for any rows there is a crash-free run of the machine that does
   exactly what `WebhookDispatcher.Alarm` promises.
   */
  lemma {:induction false} CrashFreePassIsAlarm(mics: seq<Mic>, s: State, rows: seq<Row>, now: int)
      returns (acts: seq<Action>, s': State)
    requires Inv(mics, s) && s.place == Sampling(0) && |rows| <= |mics|
    requires forall i :: 0 <= i < |rows| ==> rows[i].mic == mics[i]
    ensures Performs(mics, s, acts, s', rows, now)
    decreases |rows|
  {
    if rows == [] {
      acts, s' := [], s;
      assert Sent(s) + [] == Sent(s);
    } else {
      var mid: State;
      acts, mid := CrashFreePassIsAlarm(mics, s, rows[..|rows| - 1], now);
      RunKeepsInv(mics, s, acts);
      acts, s' := PerformsOneMore(mics, s, acts, mid, rows, now);
    }
  }
}
