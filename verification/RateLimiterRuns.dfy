/**
 Runs of the limiter: any interleaving of the lock sections of any number of
 callers, over a monotone clock and with sleeps that last at least as long as asked.

 `Level` is the independent account of the bucket: the room that the window rule
 leaves after a history of grants, with no refilling in it.
 */
module RateLimiterRuns {
  import opened Options
  import opened RateLimiting

  /** A caller asleep between its two lock sections. */
  datatype Ticket = Ticket(start: real, wake: real)

  /**
   `carried` is the number of callers asleep when the statistics were last reset,
   `lost` the number that have since left through ZeroDivisionError or been
   cancelled in their sleep.
   */
  datatype System = System(limiter: Limiter, waiting: map<nat, Ticket>, carried: nat, lost: nat)

  datatype Event =
    | Read(now: real)
    | Try(now: real, wall: real)
    | Enter(caller: nat, start: real, now: real, wall: real, timeout: Option<real>)
    | Resume(caller: nat, now: real, done: real)
    | Cancel(caller: nat)     // the sleep raises, and the second section is never entered
    | Reset(now: real)
    | ResetStats

  function Initial(c: Config, t0: real): System {
    System(Fresh(c, t0), map[], 0, 0)
  }

  /** The event tops up the bucket, or fills it, at its time. */
  predicate Timed(e: Event) {
    !e.ResetStats? && !e.Cancel?
  }

  predicate Enabled(s: System, e: Event) {
    && (Timed(e) ==> s.limiter.lastUpdate <= e.now)
    && (e.Enter? ==> e.caller !in s.waiting && e.start <= e.now)
    && (e.Resume? ==> e.caller in s.waiting && s.waiting[e.caller].wake <= e.now <= e.done)
    && (e.Cancel? ==> e.caller in s.waiting)
  }

  /** The body of the lock section of `e`, given the level it finds. */
  function Body(c: Config, s: System, e: Event, tokens: real): (r: Section)
    requires Enabled(s, e)
  {
    match e
    case Read(_) => Section(tokens, s.limiter.stats, Observed(tokens))
    case Try(_, wall) => TrySection(tokens, s.limiter.stats, wall)
    case Enter(_, _, _, wall, timeout) => EnterSection(c, tokens, s.limiter.stats, wall, timeout)
    case Resume(caller, _, done) => ResumeSection(c, tokens, s.limiter.stats, done - s.waiting[caller].start)
    case Reset(_) => Section(c.burst as real, NO_STATS, Done)
    case ResetStats => Section(tokens, NO_STATS, Done)
    case Cancel(_) => Section(tokens, s.limiter.stats, Done)
  }

  function Asleep(s: System, e: Event, o: Outcome): map<nat, Ticket> {
    match e
    case Enter(caller, start, now, _, _) =>
      if o.MustWait? then s.waiting[caller := Ticket(start, now + o.wait)] else s.waiting
    case Resume(caller, _, _) => s.waiting - {caller}
    case Cancel(caller) => s.waiting - {caller}
    case _ => s.waiting
  }

  /** The level that the lock section of `e` finds. */
  function Found(c: Config, s: System, e: Event): real {
    if Timed(e) then Refilled(c, s.limiter, e.now) else s.limiter.tokens
  }

  function Clock(s: System, e: Event): real {
    if Timed(e) then e.now else s.limiter.lastUpdate
  }

  function After(s: System, e: Event, r: Section): System {
    var wipes := e.Reset? || e.ResetStats?;
    System(
      Limiter(r.tokens, Clock(s, e), r.stats),
      Asleep(s, e, r.outcome),
      if wipes then |s.waiting| else s.carried,
      if wipes then 0 else if e.Cancel? || (e.Enter? && r.outcome.DividedByZero?) then s.lost + 1 else s.lost)
  }

  function Step(c: Config, s: System, e: Event): System
    requires Enabled(s, e)
  {
    After(s, e, Body(c, s, e, Found(c, s, e)))
  }

  function OutcomeOf(c: Config, s: System, e: Event): Outcome
    requires Enabled(s, e)
  {
    Body(c, s, e, Found(c, s, e)).outcome
  }

  predicate Run(c: Config, s: System, es: seq<Event>)
    decreases |es|
  {
    es == [] || (Enabled(s, es[0]) && Run(c, Step(c, s, es[0]), es[1..]))
  }

  function Final(c: Config, s: System, es: seq<Event>): System
    requires Run(c, s, es)
    decreases |es|
  {
    if es == [] then s else Final(c, Step(c, s, es[0]), es[1..])
  }

  predicate ResetFree(es: seq<Event>) {
    forall e :: e in es ==> !e.Reset?
  }

  /** The number of tokens granted by the events of the run whose section ran in [lo, hi]. */
  function GrantsIn(c: Config, s: System, es: seq<Event>, lo: real, hi: real): nat
    requires Run(c, s, es)
    decreases |es|
  {
    if es == [] then 0
    else
      (if Timed(es[0]) then InWindow(OutcomeOf(c, s, es[0]), es[0].now, lo, hi) else 0)
      + GrantsIn(c, Step(c, s, es[0]), es[1..], lo, hi)
  }

  // ----- the windowed rate bound -----

  lemma PouredAdds(c: Config, u: real, v: real, t: real)
    ensures Poured(c, u, v) + Poured(c, v, t) == Poured(c, u, t)
  {
  }

  lemma PouredGrows(c: Config, u: real, t: real)
    requires c.rate >= 0.0 && u <= t
    ensures Poured(c, u, t) >= 0.0
  {
  }

  predicate InRange(c: Config, s: System) {
    0.0 <= s.limiter.tokens <= c.burst as real
  }

  lemma StepKeepsRange(c: Config, s: System, e: Event)
    requires c.rate >= 0.0 && c.burst >= 0
    requires InRange(c, s) && Enabled(s, e)
    ensures InRange(c, Step(c, s, e))
  {
    PouredGrows(c, s.limiter.lastUpdate, Clock(s, e));
  }

  lemma {:induction false} TokensStayInRange(c: Config, s: System, es: seq<Event>)
    requires c.rate >= 0.0 && c.burst >= 0
    requires InRange(c, s) && Run(c, s, es)
    ensures InRange(c, Final(c, s, es))
    decreases |es|
  {
    if es == [] {
    } else {
      StepKeepsRange(c, s, es[0]);
      TokensStayInRange(c, Step(c, s, es[0]), es[1..]);
    }
  }

  /** The most that [lo, hi] can still yield from a state, by where the window lies. */
  function Allowance(c: Config, s: System, lo: real, hi: real): real {
    var u := s.limiter.lastUpdate;
    if hi < u then 0.0
    else if lo <= u then s.limiter.tokens + Poured(c, u, hi)
    else c.burst as real + Poured(c, lo, hi)
  }

  function InWindow(o: Outcome, now: real, lo: real, hi: real): nat {
    if o.Granted? && lo <= now <= hi then 1 else 0
  }

  lemma AllowanceIsNonnegative(c: Config, s: System, lo: real, hi: real)
    requires c.rate >= 0.0 && c.burst >= 0 && lo <= hi && InRange(c, s)
    ensures Allowance(c, s, lo, hi) >= 0.0
  {
    PouredGrows(c, lo, hi);
    if s.limiter.lastUpdate <= hi {
      PouredGrows(c, s.limiter.lastUpdate, hi);
    }
  }

  lemma AllowanceCovers(c: Config, s: System, e: Event, lo: real, hi: real)
    requires c.rate >= 0.0 && c.burst >= 0 && lo <= hi
    requires InRange(c, s) && Enabled(s, e) && !e.Reset?
    ensures !Timed(e) ==> Allowance(c, Step(c, s, e), lo, hi) == Allowance(c, s, lo, hi)
    ensures Timed(e) ==>
              InWindow(OutcomeOf(c, s, e), e.now, lo, hi) as real
              + Allowance(c, Step(c, s, e), lo, hi) <= Allowance(c, s, lo, hi)
  {
    AllowanceIsNonnegative(c, s, lo, hi);
    if Timed(e) && e.now <= hi {
      var u, n := s.limiter.lastUpdate, e.now;
      PouredGrows(c, u, n);
      PouredAdds(c, u, n, hi);
      PouredAdds(c, lo, n, hi);
      if lo <= n {
        PouredGrows(c, lo, n);
      }
    }
  }

  lemma {:induction false} GrantsWithinAllowance(c: Config, s: System, es: seq<Event>, lo: real, hi: real)
    requires c.rate >= 0.0 && c.burst >= 0 && lo <= hi
    requires InRange(c, s) && Run(c, s, es) && ResetFree(es)
    ensures GrantsIn(c, s, es, lo, hi) as real <= Allowance(c, s, lo, hi)
    decreases |es|
  {
    if es == [] {
      AllowanceIsNonnegative(c, s, lo, hi);
    } else {
      StepKeepsRange(c, s, es[0]);
      AllowanceCovers(c, s, es[0], lo, hi);
      GrantsWithinAllowance(c, Step(c, s, es[0]), es[1..], lo, hi);
    }
  }

  lemma WindowAllowance(c: Config, t0: real, es: seq<Event>, lo: real, hi: real)
    requires c.rate >= 0.0 && c.burst >= 0 && lo <= hi
    requires Run(c, Initial(c, t0), es) && ResetFree(es)
    ensures GrantsIn(c, Initial(c, t0), es, lo, hi) as real <= c.burst as real + Poured(c, lo, hi)
  {
    GrantsWithinAllowance(c, Initial(c, t0), es, lo, hi);
    PouredGrows(c, lo, hi);
    if lo <= t0 {
      PouredGrows(c, lo, t0);
      PouredAdds(c, lo, t0, hi);
    }
  }

  lemma PouredIsRateTimesTime(c: Config, lo: real, hi: real)
    ensures Poured(c, lo, hi) == c.rate * (hi - lo)
  {
  }

  /**
   Main result: in a reset-free run, whoever calls and however the lock sections
   interleave, no window of time sees more than a burst plus what the rate pours in.
   */
  lemma WindowBound(c: Config, t0: real, es: seq<Event>, lo: real, hi: real)
    requires c.rate >= 0.0 && c.burst >= 0 && lo <= hi
    requires Run(c, Initial(c, t0), es) && ResetFree(es)
    ensures GrantsIn(c, Initial(c, t0), es, lo, hi) as real <= c.burst as real + c.rate * (hi - lo)
  {
    WindowAllowance(c, t0, es, lo, hi);
    PouredIsRateTimesTime(c, lo, hi);
  }

  // ----- the ideal bucket -----

  /**
   The room left at `t` by the grants at `h`, oldest first: for every suffix of
   the history, a full bucket when the suffix began, plus what has poured in
   since, less the suffix.
   */
  function Level(c: Config, h: seq<real>, t: real): real {
    if h == [] then c.burst as real
    else Min(c.burst as real + Poured(c, h[0], t) - |h| as real, Level(c, h[1..], t))
  }

  /** With one more token at `t`, the window that opens at the k-th grant of `h` stays within the bound. */
  predicate WindowAllows(c: Config, h: seq<real>, t: real, k: nat)
    requires k < |h|
  {
    (|h| - k + 1) as real <= c.burst as real + Poured(c, h[k], t)
  }

  predicate WindowsAllow(c: Config, h: seq<real>, t: real) {
    c.burst >= 1 && forall k: nat | k < |h| :: WindowAllows(c, h, t, k)
  }

  lemma {:induction false} LevelIsWindowRoom(c: Config, h: seq<real>, t: real)
    ensures Level(c, h, t) >= 1.0 <==> WindowsAllow(c, h, t)
  {
    if h == [] {
    } else {
      var tail := h[1..];
      LevelIsWindowRoom(c, tail, t);
      assert forall k: nat | k < |tail| :: WindowAllows(c, tail, t, k) == WindowAllows(c, h, t, k + 1);
      assert WindowsAllow(c, h, t) <==> WindowAllows(c, h, t, 0) && WindowsAllow(c, tail, t) by {
        forall k: nat | k < |h| && WindowAllows(c, h, t, 0) && WindowsAllow(c, tail, t)
          ensures WindowAllows(c, h, t, k)
        {
          if k > 0 {
            assert WindowAllows(c, tail, t, k - 1);
          }
        }
      }
    }
  }

  lemma {:induction false} LevelPours(c: Config, h: seq<real>, u: real, t: real)
    requires c.rate >= 0.0 && u <= t
    ensures Level(c, h, u) <= c.burst as real
    ensures Level(c, h, t) == Min(c.burst as real, Level(c, h, u) + Poured(c, u, t))
  {
    PouredGrows(c, u, t);
    if h == [] {
    } else {
      LevelPours(c, h[1..], u, t);
      PouredAdds(c, h[0], u, t);
    }
  }

  lemma {:induction false} LevelSpends(c: Config, h: seq<real>, t: real)
    ensures Level(c, h + [t], t) == Level(c, h, t) - 1.0
  {
    assert Poured(c, t, t) == 0.0;
    if h == [] {
      assert (h + [t])[1..] == [];
    } else {
      LevelSpends(c, h[1..], t);
      assert (h + [t])[1..] == h[1..] + [t];
    }
  }

  /** The grants since the bucket was last made full, after one more event. */
  function Remember(c: Config, s: System, e: Event, h: seq<real>): seq<real>
    requires Enabled(s, e)
  {
    if e.Reset? then [] else if OutcomeOf(c, s, e).Granted? then h + [e.now] else h
  }

  function History(c: Config, s: System, es: seq<Event>, h: seq<real>): seq<real>
    requires Run(c, s, es)
    decreases |es|
  {
    if es == [] then h else History(c, Step(c, s, es[0]), es[1..], Remember(c, s, es[0], h))
  }

  /** The stored level is the ideal one as of the last update. */
  ghost predicate Lazy(c: Config, s: System, h: seq<real>) {
    s.limiter.tokens == Level(c, h, s.limiter.lastUpdate)
  }

  lemma FindsIdealLevel(c: Config, s: System, h: seq<real>, e: Event)
    requires c.rate >= 0.0 && Lazy(c, s, h) && Enabled(s, e)
    ensures Found(c, s, e) == Level(c, h, Clock(s, e))
  {
    LevelPours(c, h, s.limiter.lastUpdate, Clock(s, e));
  }

  lemma StepStaysLazy(c: Config, s: System, h: seq<real>, e: Event)
    requires c.rate >= 0.0 && Lazy(c, s, h) && Enabled(s, e)
    ensures Lazy(c, Step(c, s, e), Remember(c, s, e, h))
  {
    FindsIdealLevel(c, s, h, e);
    if OutcomeOf(c, s, e).Granted? {
      LevelSpends(c, h, e.now);
    }
  }

  lemma {:induction false} LazyRefillIsIdeal(c: Config, s: System, es: seq<Event>, h: seq<real>)
    requires c.rate >= 0.0 && Lazy(c, s, h) && Run(c, s, es)
    ensures Lazy(c, Final(c, s, es), History(c, s, es, h))
    decreases |es|
  {
    if es == [] {
    } else {
      StepStaysLazy(c, s, h, es[0]);
      LazyRefillIsIdeal(c, Step(c, s, es[0]), es[1..], Remember(c, s, es[0], h));
    }
  }

  /**
   Main result, the partner of WindowBound: after any run the next caller that
   asks for a token gets one exactly when no window would be overdrawn by it. The
   limiter is as permissive as the bound lets it be.
   */
  lemma GrantsExactlyWhenWindowsAllow(c: Config, t0: real, es: seq<Event>, e: Event)
    requires c.rate >= 0.0 && Run(c, Initial(c, t0), es)
    requires var s := Final(c, Initial(c, t0), es); Enabled(s, e) && (e.Try? || e.Enter? || e.Resume?)
    ensures var s := Final(c, Initial(c, t0), es);
            OutcomeOf(c, s, e).Granted? <==> WindowsAllow(c, History(c, Initial(c, t0), es, []), e.now)
  {
    var s, h := Final(c, Initial(c, t0), es), History(c, Initial(c, t0), es, []);
    LazyRefillIsIdeal(c, Initial(c, t0), es, []);
    FindsIdealLevel(c, s, h, e);
    LevelIsWindowRoom(c, h, e.now);
  }

  /** `available_tokens` tells the ideal level. */
  lemma ReadsTellTheLevel(c: Config, t0: real, es: seq<Event>, now: real)
    requires c.rate >= 0.0 && Run(c, Initial(c, t0), es) && Enabled(Final(c, Initial(c, t0), es), Read(now))
    ensures OutcomeOf(c, Final(c, Initial(c, t0), es), Read(now))
            == Observed(Level(c, History(c, Initial(c, t0), es, []), now))
  {
    LazyRefillIsIdeal(c, Initial(c, t0), es, []);
    FindsIdealLevel(c, Final(c, Initial(c, t0), es), History(c, Initial(c, t0), es, []), Read(now));
  }

  // ----- reads are invisible -----

  function Erase(es: seq<Event>): seq<Event> {
    if es == [] then [] else if es[0].Read? then Erase(es[1..]) else [es[0]] + Erase(es[1..])
  }

  /** The outcomes of everything but the `available_tokens` reads. */
  function Answers(c: Config, s: System, es: seq<Event>): seq<Outcome>
    requires Run(c, s, es)
    decreases |es|
  {
    if es == [] then []
    else
      var rest := Answers(c, Step(c, s, es[0]), es[1..]);
      if es[0].Read? then rest else [OutcomeOf(c, s, es[0])] + rest
  }

  /** Two systems that differ at most in when the bucket was last topped up. */
  ghost predicate Alike(c: Config, s: System, s': System, h: seq<real>) {
    && Lazy(c, s, h) && Lazy(c, s', h)
    && s'.limiter.lastUpdate <= s.limiter.lastUpdate
    && s' == s.(limiter := s.limiter.(tokens := s'.limiter.tokens, lastUpdate := s'.limiter.lastUpdate))
  }

  lemma AlikeStep(c: Config, s: System, s': System, h: seq<real>, e: Event)
    requires c.rate >= 0.0 && Alike(c, s, s', h) && Enabled(s, e)
    ensures Enabled(s', e)
    ensures e.Read? ==> Alike(c, Step(c, s, e), s', h)
    ensures !e.Read? ==> OutcomeOf(c, s', e) == OutcomeOf(c, s, e)
                         && Alike(c, Step(c, s, e), Step(c, s', e), Remember(c, s, e, h))
  {
    FindsIdealLevel(c, s, h, e);
    FindsIdealLevel(c, s', h, e);
    StepStaysLazy(c, s, h, e);
    StepStaysLazy(c, s', h, e);
  }

  lemma {:induction false} ErasedRunIsAlike(c: Config, s: System, s': System, es: seq<Event>, h: seq<real>)
    requires c.rate >= 0.0 && Alike(c, s, s', h) && Run(c, s, es)
    ensures Run(c, s', Erase(es))
    ensures Answers(c, s', Erase(es)) == Answers(c, s, es)
    decreases |es|
  {
    if es == [] {
    } else {
      var e := es[0];
      AlikeStep(c, s, s', h, e);
      if e.Read? {
        ErasedRunIsAlike(c, Step(c, s, e), s', es[1..], h);
      } else {
        ErasedRunIsAlike(c, Step(c, s, e), Step(c, s', e), es[1..], Remember(c, s, e, h));
        assert Erase(es)[1..] == Erase(es[1..]);
      }
    }
  }

  /**
   Main result: looking at `available_tokens` any number of times, anywhere,
   changes no grant, denial or wait.
   */
  lemma ReadsAreInvisible(c: Config, t0: real, es: seq<Event>, es': seq<Event>)
    requires c.rate >= 0.0
    requires Run(c, Initial(c, t0), es) && Run(c, Initial(c, t0), es')
    requires Erase(es) == Erase(es')
    ensures Answers(c, Initial(c, t0), es) == Answers(c, Initial(c, t0), es')
  {
    var s := Initial(c, t0);
    ErasedRunIsAlike(c, s, s, es, []);
    ErasedRunIsAlike(c, s, s, es', []);
  }

  // ----- contention between waiters -----

  function Grants(c: Config, s: System, es: seq<Event>): nat
    requires Run(c, s, es)
    decreases |es|
  {
    if es == [] then 0
    else (if OutcomeOf(c, s, es[0]).Granted? then 1 else 0) + Grants(c, Step(c, s, es[0]), es[1..])
  }

  lemma {:induction false} UndisturbedLevel(c: Config, s: System, es: seq<Event>, t: real)
    requires c.rate >= 0.0 && s.limiter.tokens <= c.burst as real
    requires Run(c, s, es) && Grants(c, s, es) == 0
    requires Final(c, s, es).limiter.lastUpdate <= t
    ensures s.limiter.lastUpdate <= t
    ensures Refilled(c, Final(c, s, es).limiter, t) >= Refilled(c, s.limiter, t)
    decreases |es|
  {
    if es == [] {
    } else {
      var s1 := Step(c, s, es[0]);
      var u, n := s.limiter.lastUpdate, s1.limiter.lastUpdate;
      PouredGrows(c, u, n);
      UndisturbedLevel(c, s1, es[1..], t);
      PouredGrows(c, n, t);
      PouredAdds(c, u, n, t);
    }
  }

  lemma SleptLongEnough(c: Config, tokens: real, from: real, to: real)
    requires c.rate > 0.0 && from + (1.0 - tokens) / c.rate <= to
    ensures tokens + Poured(c, from, to) >= 1.0
  {
    var wait := (1.0 - tokens) / c.rate;
    assert wait * c.rate == 1.0 - tokens;
    PouredAdds(c, from, from + wait, to);
    PouredGrows(c, from + wait, to);
  }

  /**
   Main result: a caller told to wait gets its token when it comes back unless
   somebody else was granted one while it slept.
   */
  lemma ResumeFailsOnlyUnderContention(c: Config, s: System, enter: Event, es: seq<Event>, resume: Event)
    requires c.rate > 0.0 && c.burst >= 1 && s.limiter.tokens <= c.burst as real
    requires enter.Enter? && Enabled(s, enter) && OutcomeOf(c, s, enter).MustWait?
    requires Run(c, Step(c, s, enter), es)
    requires forall e :: e in es && (e.Resume? || e.Cancel?) ==> e.caller != enter.caller
    requires var s2 := Final(c, Step(c, s, enter), es);
             resume.Resume? && resume.caller == enter.caller && Enabled(s2, resume)
    ensures var s2 := Final(c, Step(c, s, enter), es);
            OutcomeOf(c, s2, resume).Granted? || Grants(c, Step(c, s, enter), es) > 0
  {
    var s1 := Step(c, s, enter);
    var wait := OutcomeOf(c, s, enter).wait;
    KeepsTicket(c, s1, es, enter.caller);
    if Grants(c, s1, es) == 0 {
      UndisturbedLevel(c, s1, es, resume.now);
      SleptLongEnough(c, s1.limiter.tokens, enter.now, resume.now);
    }
  }

  lemma {:induction false} KeepsTicket(c: Config, s: System, es: seq<Event>, caller: nat)
    requires Run(c, s, es) && caller in s.waiting
    requires forall e :: e in es && (e.Resume? || e.Cancel?) ==> e.caller != caller
    ensures caller in Final(c, s, es).waiting
    ensures Final(c, s, es).waiting[caller] == s.waiting[caller]
    decreases |es|
  {
    if es == [] {
    } else {
      assert es[0] in es;
      KeepsTicket(c, Step(c, s, es[0]), es[1..], caller);
    }
  }

  /** The level that a caller told to wait leaves behind is back at one token when its wait is over. */
  lemma WaitEndsAtOneToken(c: Config, tokens: real, wait: real, from: real)
    requires c.rate > 0.0 && wait == (1.0 - tokens) / c.rate
    ensures tokens + Poured(c, from, from + wait) == 1.0
  {
    assert wait * c.rate == 1.0 - tokens;
  }

  lemma LessThanOneToken(c: Config, from: real, to: real)
    requires c.rate > 0.0 && to < from + 1.0 / c.rate
    ensures Poured(c, from, to) < 1.0
  {
    var gap := to - from;
    assert 1.0 / c.rate * c.rate == 1.0;
    assert (1.0 / c.rate - gap) * c.rate > 0.0;
  }

  /**
   The contention is real, and the code's "shouldn't happen normally" is not so:
   whenever two callers are told to wait at one instant they are told the same
   time, and when the first comes back on time the second is refused unless it
   oversleeps by a whole token's worth.
   */
  lemma SecondWaiterIsRefused(c: Config, s: System, enter: Event, enter': Event, resume: Event, resume': Event)
    requires c.rate > 0.0 && c.burst >= 1
    requires enter.Enter? && Enabled(s, enter) && OutcomeOf(c, s, enter).MustWait?
    requires var s1 := Step(c, s, enter);
             enter'.Enter? && Enabled(s1, enter') && enter'.now == enter.now && OutcomeOf(c, s1, enter').MustWait?
    requires var s1 := Step(c, s, enter);
             var s2 := Step(c, s1, enter');
             && resume.Resume? && resume.caller == enter.caller && Enabled(s2, resume)
             && resume.now == s2.waiting[enter.caller].wake
    requires var s3 := Step(c, Step(c, Step(c, s, enter), enter'), resume);
             && resume'.Resume? && resume'.caller == enter'.caller && Enabled(s3, resume')
             && resume'.now < resume.now + 1.0 / c.rate
    ensures var s1 := Step(c, s, enter);
            var s2 := Step(c, s1, enter');
            && OutcomeOf(c, s1, enter') == OutcomeOf(c, s, enter)
            && OutcomeOf(c, s2, resume).Granted?
            && OutcomeOf(c, Step(c, s2, resume), resume').Raised?
  {
    var s1 := Step(c, s, enter);
    var s2 := Step(c, s1, enter');
    assert Poured(c, enter.now, enter.now) == 0.0;
    WaitEndsAtOneToken(c, s1.limiter.tokens, OutcomeOf(c, s, enter).wait, enter.now);
    LessThanOneToken(c, resume.now, resume'.now);
  }

  /**
   The wait that a caller is told, slept or raised, is exact: left alone, the
   bucket holds a whole token from then on and at no time before.
   */
  lemma WaitIsTheEarliestTime(c: Config, s: System, e: Event, t: real)
    requires c.rate > 0.0 && c.burst >= 1 && Enabled(s, e) && (e.Enter? || e.Resume?)
    requires OutcomeOf(c, s, e).MustWait? || OutcomeOf(c, s, e).Raised?
    requires e.now <= t
    ensures Refilled(c, Step(c, s, e).limiter, t) >= 1.0 <==> e.now + OutcomeOf(c, s, e).wait <= t
  {
    var tokens, wait := Step(c, s, e).limiter.tokens, OutcomeOf(c, s, e).wait;
    WaitEndsAtOneToken(c, tokens, wait, e.now);
    PouredAdds(c, e.now, e.now + wait, t);
    if e.now + wait <= t {
      PouredGrows(c, e.now + wait, t);
    } else {
      PouredShrinks(c, e.now + wait, t);
    }
  }

  /** The level of the ideal bucket, left alone from `now` on with less than a token, at a later time. */
  lemma LeftAlone(c: Config, s: System, h: seq<real>, e: Event, t: real)
    requires c.rate > 0.0 && c.burst >= 1 && Lazy(c, s, h) && Enabled(s, e) && e.Enter?
    requires OutcomeOf(c, s, e).MustWait? || OutcomeOf(c, s, e).Raised?
    requires e.now <= t
    ensures WindowsAllow(c, h, t) <==> e.now + OutcomeOf(c, s, e).wait <= t
  {
    StepStaysLazy(c, s, h, e);
    LevelPours(c, h, e.now, t);
    LevelIsWindowRoom(c, h, t);
    WaitIsTheEarliestTime(c, s, e, t);
  }

  /** How long the caller is ready to sleep. */
  function Limit(c: Config, e: Event): real
    requires e.Enter?
  {
    match e.timeout
    case Some(timeout) => timeout
    case None => c.maxWait
  }

  /** Some time within the limit the windows would allow a token, if nobody else took one. */
  ghost predicate TokenInTime(c: Config, h: seq<real>, e: Event)
    requires e.Enter?
  {
    exists t :: e.now <= t <= e.now + Limit(c, e) && WindowsAllow(c, h, t)
  }

  lemma TokenInTimeByWait(c: Config, s: System, h: seq<real>, e: Event)
    requires c.rate > 0.0 && c.burst >= 1 && Lazy(c, s, h) && Enabled(s, e) && e.Enter?
    requires OutcomeOf(c, s, e).MustWait? || OutcomeOf(c, s, e).Raised?
    ensures TokenInTime(c, h, e) <==> OutcomeOf(c, s, e).wait <= Limit(c, e)
  {
    var wait := OutcomeOf(c, s, e).wait;
    WaitIsPositive(c, s, e);
    LeftAlone(c, s, h, e, e.now + wait);
    forall t | e.now <= t <= e.now + Limit(c, e)
      ensures WindowsAllow(c, h, t) <==> e.now + wait <= t
    {
      LeftAlone(c, s, h, e, t);
    }
  }

  lemma EntersByWait(c: Config, s: System, e: Event)
    requires c.rate > 0.0 && e.Enter? && Enabled(s, e) && !OutcomeOf(c, s, e).Granted?
    ensures var o := OutcomeOf(c, s, e);
            && (o.MustWait? || o.Raised?)
            && (o.MustWait? <==> c.block && o.wait <= Limit(c, e))
  {
  }

  /**
   Main result: after any run, at a positive rate, a caller of `acquire` that gets no
   token at once is put to sleep exactly when blocking is on and, left alone, the
   windows would allow it a token within its timeout; otherwise it is refused.
   */
  lemma SleepsExactlyWhenInTime(c: Config, t0: real, es: seq<Event>, e: Event)
    requires c.rate > 0.0 && c.burst >= 1 && Run(c, Initial(c, t0), es)
    requires e.Enter? && Enabled(Final(c, Initial(c, t0), es), e)
    requires !OutcomeOf(c, Final(c, Initial(c, t0), es), e).Granted?
    ensures var o, h := OutcomeOf(c, Final(c, Initial(c, t0), es), e), History(c, Initial(c, t0), es, []);
            && (o.MustWait? <==> c.block && TokenInTime(c, h, e))
            && (o.Raised? <==> !o.MustWait?)
  {
    var s := Final(c, Initial(c, t0), es);
    LazyRefillIsIdeal(c, Initial(c, t0), es, []);
    EntersByWait(c, s, e);
    TokenInTimeByWait(c, s, History(c, Initial(c, t0), es, []), e);
  }

  lemma WaitIsPositive(c: Config, s: System, e: Event)
    requires c.rate > 0.0 && e.Enter? && Enabled(s, e)
    requires OutcomeOf(c, s, e).MustWait? || OutcomeOf(c, s, e).Raised?
    ensures OutcomeOf(c, s, e).wait > 0.0
  {
    var gap, wait := 1.0 - Found(c, s, e), OutcomeOf(c, s, e).wait;
    assert wait * c.rate == gap;
    assert wait <= 0.0 ==> wait * c.rate <= 0.0;
  }

  /** What else a section can come to at a positive rate: `try_acquire` answers, a sleeper is granted or refused. */
  lemma OthersAnswerAtOnce(c: Config, s: System, e: Event)
    requires c.rate > 0.0 && Enabled(s, e) && (e.Try? || e.Resume?)
    ensures e.Try? ==> OutcomeOf(c, s, e) == Granted(0.0) || OutcomeOf(c, s, e).Denied?
    ensures e.Resume? ==> OutcomeOf(c, s, e).Granted? || OutcomeOf(c, s, e).Raised?
  {
  }

  /** A caller that had to sleep is told the time from its call to its return, and any other caller zero. */
  lemma WaitedIsTimeSinceTheCall(c: Config, s: System, enter: Event, es: seq<Event>, resume: Event)
    requires enter.Enter? && Enabled(s, enter) && OutcomeOf(c, s, enter).MustWait?
    requires Run(c, Step(c, s, enter), es)
    requires forall e :: e in es && (e.Resume? || e.Cancel?) ==> e.caller != enter.caller
    requires var s2 := Final(c, Step(c, s, enter), es);
             resume.Resume? && resume.caller == enter.caller && Enabled(s2, resume) && OutcomeOf(c, s2, resume).Granted?
    ensures OutcomeOf(c, Final(c, Step(c, s, enter), es), resume) == Granted(resume.done - enter.start)
  {
    KeepsTicket(c, Step(c, s, enter), es, enter.caller);
  }

  lemma PouredShrinks(c: Config, u: real, t: real)
    requires c.rate > 0.0 && t < u
    ensures Poured(c, u, t) < 0.0
  {
    assert (u - t) * c.rate > 0.0;
  }

  // ----- the counters -----

  /** Every caller counted in is counted out, asleep, or was lost to a division by zero or a cancellation. */
  predicate Balanced(s: System) {
    var stats := s.limiter.stats;
    stats.total + s.carried == stats.allowed + stats.throttled + |s.waiting| + s.lost
  }

  lemma StepBalances(c: Config, s: System, e: Event)
    requires Balanced(s) && Enabled(s, e)
    ensures Balanced(Step(c, s, e))
  {
    if e.Resume? || e.Cancel? {
      var rest := s.waiting - {e.caller};
      assert rest.Keys == s.waiting.Keys - {e.caller};
      assert |rest| == |rest.Keys| && |s.waiting| == |s.waiting.Keys|;
    }
  }

  lemma {:induction false} CountersBalance(c: Config, s: System, es: seq<Event>)
    requires Balanced(s) && Run(c, s, es)
    ensures Balanced(Final(c, s, es))
    decreases |es|
  {
    if es == [] {
    } else {
      StepBalances(c, s, es[0]);
      CountersBalance(c, Step(c, s, es[0]), es[1..]);
    }
  }

  /** The callers cancelled in their sleep. */
  function Cancels(es: seq<Event>): nat {
    if es == [] then 0 else (if es[0].Cancel? then 1 else 0) + Cancels(es[1..])
  }

  /** The caller enters `acquire` at rate zero and finds less than one token. */
  predicate Short(c: Config, s: System, e: Event)
    requires Enabled(s, e)
  {
    e.Enter? && c.rate == 0.0 && Found(c, s, e) < 1.0
  }

  function Shorts(c: Config, s: System, es: seq<Event>): nat
    requires Run(c, s, es)
    decreases |es|
  {
    if es == [] then 0 else (if Short(c, s, es[0]) then 1 else 0) + Shorts(c, Step(c, s, es[0]), es[1..])
  }

  lemma {:induction false} CancelledOrShortAreLost(c: Config, s: System, es: seq<Event>)
    requires s.carried == 0 && Run(c, s, es)
    requires ResetFree(es) && ResetStats !in es
    ensures Final(c, s, es).carried == 0
    ensures Final(c, s, es).lost == s.lost + Cancels(es) + Shorts(c, s, es)
    decreases |es|
  {
    if es == [] {
    } else {
      CancelledOrShortAreLost(c, Step(c, s, es[0]), es[1..]);
    }
  }

  /**
   Main result, at every rate: until somebody resets, total requests are the allowed,
   the throttled, the callers asleep between their lock sections, those cancelled
   there, and those that entered at rate zero below one token. So the first three
   account for all exactly when there was nobody of the last two kinds.
   */
  lemma TotalIsAllowedThrottledAndAsleep(c: Config, t0: real, es: seq<Event>)
    requires Run(c, Initial(c, t0), es) && ResetFree(es) && ResetStats !in es
    ensures var s := Final(c, Initial(c, t0), es);
            var stats := s.limiter.stats;
            && stats.total == stats.allowed + stats.throttled + |s.waiting|
                              + Cancels(es) + Shorts(c, Initial(c, t0), es)
            && (stats.total == stats.allowed + stats.throttled + |s.waiting| <==>
                (forall e :: e in es ==> !e.Cancel?) && Shorts(c, Initial(c, t0), es) == 0)
  {
    CountersBalance(c, Initial(c, t0), es);
    CancelledOrShortAreLost(c, Initial(c, t0), es);
    NoneCancelled(es);
  }

  lemma {:induction false} ZeroRateOnlySpends(c: Config, s: System, es: seq<Event>)
    requires c.rate == 0.0 && s.limiter.tokens <= c.burst as real
    requires Run(c, s, es) && ResetFree(es)
    ensures Final(c, s, es).limiter.tokens == s.limiter.tokens - Grants(c, s, es) as real
    decreases |es|
  {
    if es == [] {
    } else {
      assert Poured(c, s.limiter.lastUpdate, Clock(s, es[0])) == 0.0;
      ZeroRateOnlySpends(c, Step(c, s, es[0]), es[1..]);
    }
  }

  /** The condition in terms of the grants: a caller comes short exactly at rate zero with the burst spent. */
  lemma ShortOnceTheBurstIsSpent(c: Config, t0: real, es: seq<Event>, e: Event)
    requires Run(c, Initial(c, t0), es) && ResetFree(es)
    requires e.Enter? && Enabled(Final(c, Initial(c, t0), es), e)
    ensures Short(c, Final(c, Initial(c, t0), es), e)
            <==> c.rate == 0.0 && Grants(c, Initial(c, t0), es) >= c.burst
  {
    var s := Final(c, Initial(c, t0), es);
    if c.rate == 0.0 {
      ZeroRateOnlySpends(c, Initial(c, t0), es);
      assert Poured(c, s.limiter.lastUpdate, e.now) == 0.0;
    }
  }

  lemma {:induction false} NoneCancelled(es: seq<Event>)
    ensures Cancels(es) == 0 <==> forall e :: e in es ==> !e.Cancel?
  {
    if es == [] {
    } else {
      NoneCancelled(es[1..]);
      assert forall e :: e in es <==> e == es[0] || e in es[1..];
    }
  }

  /** The allowed counter is the number of tokens handed out since the statistics were cleared. */
  lemma {:induction false} AllowedCountsGrants(c: Config, s: System, es: seq<Event>)
    requires Run(c, s, es) && ResetFree(es) && ResetStats !in es
    ensures Final(c, s, es).limiter.stats.allowed == s.limiter.stats.allowed + Grants(c, s, es)
    decreases |es|
  {
    if es == [] {
    } else {
      AllowedCountsGrants(c, Step(c, s, es[0]), es[1..]);
    }
  }

  /** The requests that were refused: denied, raised, or found no wait to tell after their sleep. */
  function Refusals(c: Config, s: System, es: seq<Event>): nat
    requires Run(c, s, es)
    decreases |es|
  {
    if es == [] then 0
    else
      var o := OutcomeOf(c, s, es[0]);
      (if o.Denied? || o.Raised? || (es[0].Resume? && o.DividedByZero?) then 1 else 0)
      + Refusals(c, Step(c, s, es[0]), es[1..])
  }

  /** The throttled counter is the number of refused requests since the statistics were cleared. */
  lemma {:induction false} ThrottledCountsRefusals(c: Config, s: System, es: seq<Event>)
    requires Run(c, s, es) && ResetFree(es) && ResetStats !in es
    ensures Final(c, s, es).limiter.stats.throttled == s.limiter.stats.throttled + Refusals(c, s, es)
    decreases |es|
  {
    if es == [] {
    } else {
      ThrottledCountsRefusals(c, Step(c, s, es[0]), es[1..]);
    }
  }

  /** The wall clock of the last request, as the events tell it. */
  function LastAsked(es: seq<Event>, before: Option<real>): Option<real> {
    if es == [] then before
    else
      LastAsked(es[1..],
                if es[0].Try? || es[0].Enter? then Some(es[0].wall)
                else if es[0].Reset? || es[0].ResetStats? then None
                else before)
  }

  /** `last_request_time` is that of the last request since the statistics were cleared. */
  lemma {:induction false} LastRequestIsRecorded(c: Config, s: System, es: seq<Event>)
    requires Run(c, s, es)
    ensures Final(c, s, es).limiter.stats.lastRequest == LastAsked(es, s.limiter.stats.lastRequest)
    decreases |es|
  {
    if es == [] {
    } else {
      LastRequestIsRecorded(c, Step(c, s, es[0]), es[1..]);
    }
  }

  /** The waits of the callers that were granted a token. */
  function Waited(c: Config, s: System, es: seq<Event>): real
    requires Run(c, s, es)
    decreases |es|
  {
    if es == [] then 0.0
    else
      var o := OutcomeOf(c, s, es[0]);
      (if o.Granted? then o.waited else 0.0) + Waited(c, Step(c, s, es[0]), es[1..])
  }

  /** The total wait time is the sum of the waits that `acquire` returned. */
  lemma {:induction false} TotalWaitSumsWaits(c: Config, s: System, es: seq<Event>)
    requires Run(c, s, es) && ResetFree(es) && ResetStats !in es
    ensures Final(c, s, es).limiter.stats.totalWait == s.limiter.stats.totalWait + Waited(c, s, es)
    decreases |es|
  {
    if es == [] {
    } else {
      TotalWaitSumsWaits(c, Step(c, s, es[0]), es[1..]);
    }
  }

  /** At rate zero one caller is in no column: the division by zero leaves it uncounted. */
  lemma ZeroRateLosesACaller(now: real, timeout: Option<real>)
    ensures var c := Config(0.0, 0, true, 30.0);
            var e := Enter(1, now, now, now, timeout);
            var s := Step(c, Initial(c, now), e);
            && OutcomeOf(c, Initial(c, now), e).DividedByZero?
            && s.limiter.stats == Stats(1, 0, 0, 0.0, Some(now)) && s.waiting == map[]
  {
  }
}
