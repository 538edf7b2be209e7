/**
 Who keeps the dispatcher alive: /bootstrap reads the alarm and then, in a
 separate step, may set it; a firing alarm starts a pass, and a pass that
 completes sets the next alarm. The steps of any number of bootstraps interleave
 with a running pass. Storage has one alarm slot and the platform runs one pass at a time.
 */
module AlarmSchedule {
  import opened Options
  import opened WebhookDispatching

  /** `booting` maps a bootstrap that has read the alarm to whether it found one. */
  datatype State = State(
    clock: int,
    alarm: Option<int>,
    running: bool,
    booting: map<nat, bool>,
    booted: bool)

  datatype Action =
    | Tick(elapsed: nat)
    | BootRead(id: nat)
    | BootWrite(id: nat)
    | Fire
    | Throw     // the pass throws; the platform runs it again
    | Finish

  function Initial(clock: int): State {
    State(clock, None, false, map[], false)
  }

  predicate Enabled(s: State, a: Action) {
    match a
    case Tick(_) => true
    case BootRead(id) => id !in s.booting
    case BootWrite(id) => id in s.booting
    case Fire => s.alarm.Some? && s.alarm.value <= s.clock && !s.running
    case Throw => s.running
    case Finish => s.running
  }

  function Apply(s: State, a: Action): State
    requires Enabled(s, a)
  {
    match a
    case Tick(elapsed) => s.(clock := s.clock + elapsed)
    case BootRead(id) => s.(booting := s.booting[id := s.alarm.Some?])
    case BootWrite(id) =>
      s.(alarm := if s.booting[id] then s.alarm else Some(s.clock + PERIOD),
         booting := s.booting - {id},
         booted := true)
    case Fire => s.(alarm := None, running := true)
    case Throw => s
    case Finish => s.(alarm := Some(s.clock + PERIOD), running := false)
  }

  predicate Run(s: State, acts: seq<Action>)
    decreases |acts|
  {
    acts == [] || (Enabled(s, acts[0]) && Run(Apply(s, acts[0]), acts[1..]))
  }

  function Final(s: State, acts: seq<Action>): State
    requires Run(s, acts)
    decreases |acts|
  {
    if acts == [] then s else Final(Apply(s, acts[0]), acts[1..])
  }

  /** A pass is pending or under way. */
  predicate Alive(s: State) {
    s.alarm.Some? || s.running
  }

  ghost predicate Inv(s: State) {
    && (s.booted ==> Alive(s))
    && (forall id :: id in s.booting && s.booting[id] ==> Alive(s))
    && (s.alarm.Some? ==> s.alarm.value <= s.clock + PERIOD)
  }

  lemma StepKeepsInv(s: State, a: Action)
    requires Inv(s) && Enabled(s, a)
    ensures Inv(Apply(s, a))
    ensures Alive(s) ==> Alive(Apply(s, a))
    ensures s.booted ==> Apply(s, a).booted
  {
  }

  lemma {:induction false} RunKeepsInv(s: State, acts: seq<Action>)
    requires Inv(s) && Run(s, acts)
    ensures Inv(Final(s, acts))
    ensures s.booted ==> Final(s, acts).booted
    decreases |acts|
  {
    if acts == [] {
    } else {
      StepKeepsInv(s, acts[0]);
      RunKeepsInv(Apply(s, acts[0]), acts[1..]);
    }
  }

  /**
   Main result: once one bootstrap has returned, in every reachable state a pass
   is pending or under way, and a pending one is due within a minute.
   */
  lemma NeverDiesOnceBooted(clock: int, acts: seq<Action>, more: seq<Action>)
    requires Run(Initial(clock), acts) && Final(Initial(clock), acts).booted
    requires Run(Final(Initial(clock), acts), more)
    ensures var s := Final(Final(Initial(clock), acts), more);
            Alive(s) && (s.alarm.Some? ==> s.alarm.value <= s.clock + PERIOD)
  {
    RunKeepsInv(Initial(clock), acts);
    RunKeepsInv(Final(Initial(clock), acts), more);
  }

  function Fires(acts: seq<Action>): nat {
    if acts == [] then 0 else (if acts[0].Fire? then 1 else 0) + Fires(acts[1..])
  }

  /** How often an alarm is set: by a pass that completes, or by a bootstrap that had found none. */
  function Sets(s: State, acts: seq<Action>): nat
    requires Run(s, acts)
    decreases |acts|
  {
    if acts == [] then 0
    else
      (if acts[0].Finish? || (acts[0].BootWrite? && !s.booting[acts[0].id]) then 1 else 0)
      + Sets(Apply(s, acts[0]), acts[1..])
  }

  /** No alarm fires twice: a firing uses it up, and none is left over but the one in the slot. */
  lemma {:induction false} EachAlarmFiresOnce(s: State, acts: seq<Action>)
    requires Run(s, acts)
    ensures Fires(acts) + (if Final(s, acts).alarm.Some? then 1 else 0)
            <= Sets(s, acts) + if s.alarm.Some? then 1 else 0
    decreases |acts|
  {
    if acts == [] {
    } else {
      EachAlarmFiresOnce(Apply(s, acts[0]), acts[1..]);
    }
  }

  /** So from any such state, undisturbed, a pass runs once a minute has gone by. */
  lemma APassIsAlwaysAMinuteAway(s: State)
    requires Inv(s) && s.booted && !s.running
    ensures Run(s, [Tick(PERIOD), Fire]) && Final(s, [Tick(PERIOD), Fire]).running
  {
    var s1 := Apply(s, Tick(PERIOD));
    assert [Tick(PERIOD), Fire][1..] == [Fire] && [Fire][1..] == [];
    assert Run(s1, [Fire]);
  }

  // ----- how long bootstraps can put a pass off -----

  /** The bootstraps that have found no alarm and are yet to set one. */
  ghost function Stale(s: State): set<nat> {
    set id | id in s.booting && !s.booting[id]
  }

  /** A pending alarm that is not overdue. */
  predicate Pending(s: State) {
    s.alarm.Some? && !s.running && s.clock <= s.alarm.value
  }

  /** The platform lets no time go by past a due alarm, and it has not fired yet. */
  predicate Unfired(s: State, acts: seq<Action>)
    requires Run(s, acts)
    decreases |acts|
  {
    acts == [] ||
    (&& !acts[0].Fire?
     && (acts[0].Tick? && s.alarm.Some? ==> s.clock + acts[0].elapsed <= s.alarm.value)
     && Unfired(Apply(s, acts[0]), acts[1..]))
  }

  lemma OnePutsOff(s: State, a: Action)
    requires Pending(s) && Enabled(s, a) && !a.Fire?
    requires a.Tick? ==> s.clock + a.elapsed <= s.alarm.value
    ensures Pending(Apply(s, a))
    ensures |Stale(Apply(s, a))| <= |Stale(s)|
    ensures Apply(s, a).alarm.value <= s.alarm.value + PERIOD * (|Stale(s)| - |Stale(Apply(s, a))|)
  {
    var s' := Apply(s, a);
    if a.BootWrite? {
      assert Stale(s') == Stale(s) - {a.id};
    } else {
      assert Stale(s') == Stale(s);
    }
  }

  /**
   Main result: while an alarm is pending, each bootstrap that had found none can put
   it off once, by a minute at most, and no other can. So a pass is never further
   away than a minute for each of those and one more.
   */
  lemma {:induction false} PostponementIsBounded(s: State, acts: seq<Action>)
    requires Pending(s) && Run(s, acts) && Unfired(s, acts)
    ensures Pending(Final(s, acts)) && |Stale(Final(s, acts))| <= |Stale(s)|
    ensures Final(s, acts).alarm.value <= s.alarm.value + PERIOD * (|Stale(s)| - |Stale(Final(s, acts))|)
    ensures Inv(s) ==> Final(s, acts).clock <= s.clock + PERIOD * (1 + |Stale(s)|)
    decreases |acts|
  {
    if acts == [] {
    } else {
      OnePutsOff(s, acts[0]);
      PostponementIsBounded(Apply(s, acts[0]), acts[1..]);
    }
  }

  /** A bootstrap that found no alarm sets it anew just when it is due. */
  lemma StaleWritePutsOff(s: State, id: nat)
    requires Pending(s) && id in Stale(s)
    ensures var wait, write := Tick(s.alarm.value - s.clock), BootWrite(id);
            && Run(s, [wait, write]) && Unfired(s, [wait, write])
            && Pending(Final(s, [wait, write]))
            && Final(s, [wait, write]).alarm == Some(s.alarm.value + PERIOD)
            && Stale(Final(s, [wait, write])) == Stale(s) - {id}
  {
    var wait, write := Tick(s.alarm.value - s.clock), BootWrite(id);
    var s1 := Apply(s, wait);
    assert [wait, write][1..] == [write] && [write][1..] == [];
    assert Run(s1, [write]) && Unfired(s1, [write]);
    assert Final(s1, [write]) == Apply(s1, write);
  }

  lemma {:induction false} UnfiredGoesOn(s: State, acts: seq<Action>, more: seq<Action>)
    requires Run(s, acts) && Unfired(s, acts)
    requires Run(Final(s, acts), more) && Unfired(Final(s, acts), more)
    ensures Run(s, acts + more) && Unfired(s, acts + more)
    ensures Final(s, acts + more) == Final(Final(s, acts), more)
    decreases |acts|
  {
    if acts == [] {
      assert acts + more == more;
    } else {
      UnfiredGoesOn(Apply(s, acts[0]), acts[1..], more);
      assert (acts + more)[1..] == acts[1..] + more;
    }
  }

  /** Main result: the bound is attained, from every state with a pending alarm. */
  lemma {:induction false} PostponementIsAttained(s: State) returns (acts: seq<Action>)
    requires Pending(s)
    ensures Run(s, acts) && Unfired(s, acts)
    ensures Pending(Final(s, acts)) && Final(s, acts).alarm == Some(s.alarm.value + PERIOD * |Stale(s)|)
    decreases |Stale(s)|
  {
    if Stale(s) == {} {
      acts := [];
    } else {
      var id :| id in Stale(s);
      var first := [Tick(s.alarm.value - s.clock), BootWrite(id)];
      StaleWritePutsOff(s, id);
      acts := PostponementIsAttained(Final(s, first));
      UnfiredGoesOn(s, first, acts);
      acts := first + acts;
    }
  }

  /** `acts` puts the pending pass off. */
  predicate PutsOff(s: State, acts: seq<Action>)
    requires Pending(s)
  {
    Run(s, acts) && Unfired(s, acts) && Final(s, acts).alarm.Some? && Final(s, acts).alarm.value > s.alarm.value
  }

  /** So a pending pass can be put off exactly when some bootstrap found no alarm and is yet to write. */
  lemma PutOffExactlyByStaleBootstraps(s: State)
    requires Pending(s)
    ensures (exists acts :: PutsOff(s, acts)) <==> Stale(s) != {}
  {
    if Stale(s) != {} {
      var acts := PostponementIsAttained(s);
      assert PutsOff(s, acts);
    }
    forall acts | PutsOff(s, acts)
      ensures Stale(s) != {}
    {
      PostponementIsBounded(s, acts);
    }
  }

  lemma RunGoesOn(s: State, acts: seq<Action>, a: Action)
    requires Run(s, acts) && Enabled(Final(s, acts), a)
    ensures Run(s, acts + [a]) && Final(s, acts + [a]) == Apply(Final(s, acts), a)
    decreases |acts|
  {
    if acts == [] {
      assert [] + [a] == [a] && [a][1..] == [];
    } else {
      assert (acts + [a])[1..] == acts[1..] + [a];
      RunGoesOn(Apply(s, acts[0]), acts[1..], a);
    }
  }

  /** And such bootstraps come about: two that find no alarm, and the second sets it anew when it is due. */
  lemma StaleBootstrapPutsOff(clock: int)
    ensures var acts := [BootRead(1)] + [BootRead(2)] + [BootWrite(1)] + [Tick(PERIOD)] + [BootWrite(2)];
            && Run(Initial(clock), acts)
            && Final(Initial(clock), acts).alarm == Some(clock + 2 * PERIOD)
            && !Final(Initial(clock), acts).running
  {
    var s := Initial(clock);
    assert [] + [BootRead(1)] == [BootRead(1)];
    RunGoesOn(s, [], BootRead(1));
    RunGoesOn(s, [BootRead(1)], BootRead(2));
    RunGoesOn(s, [BootRead(1)] + [BootRead(2)], BootWrite(1));
    RunGoesOn(s, [BootRead(1)] + [BootRead(2)] + [BootWrite(1)], Tick(PERIOD));
    RunGoesOn(s, [BootRead(1)] + [BootRead(2)] + [BootWrite(1)] + [Tick(PERIOD)], BootWrite(2));
  }
}
