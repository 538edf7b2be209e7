/**
 The token-bucket limiter of rate_limiter.py.

 `RateLimiter` is the object with its fields updated in place, one method per
 lock section; `acquire` holds the lock twice with a sleep between, so it is two
 methods. Every method is tied to a function on the value `Limiter`, and
 RateLimiterRuns.dfy proves what any interleaving of those sections keeps.

 Clock readings are parameters and levels are reals.
 */
module RateLimiting {
  import opened Options

  datatype Config = Config(rate: real, burst: int, block: bool, maxWait: real)

  datatype Stats = Stats(
    total: nat,
    allowed: nat,
    throttled: nat,
    totalWait: real,
    lastRequest: Option<real>)

  const NO_STATS := Stats(0, 0, 0, 0.0, None)

  /** What the lock protects. */
  datatype Limiter = Limiter(tokens: real, lastUpdate: real, stats: Stats)

  datatype Outcome =
    | Granted(waited: real)    // the caller holds a token
    | Denied                   // try_acquire returned False
    | Raised(wait: real)       // RateLimitExceeded
    | MustWait(wait: real)     // acquire leaves the lock and sleeps
    | DividedByZero            // the wait for a token at rate zero
    | Observed(tokens: real)   // available_tokens
    | Done                     // reset, reset_stats

  function Min(a: real, b: real): real {
    if a <= b then a else b
  }

  /** The tokens that the rate pours in from `from` to `to`. */
  function Poured(c: Config, from: real, to: real): real {
    (to - from) * c.rate
  }

  /** The level after `_refill_tokens`. */
  function Refilled(c: Config, s: Limiter, now: real): real {
    Min(c.burst as real, s.tokens + Poured(c, s.lastUpdate, now))
  }

  function Counted(stats: Stats, wall: real): Stats {
    stats.(total := stats.total + 1, lastRequest := Some(wall))
  }

  function Allowed(stats: Stats): Stats {
    stats.(allowed := stats.allowed + 1)
  }

  function Throttled(stats: Stats): Stats {
    stats.(throttled := stats.throttled + 1)
  }

  /** What a lock section does once the level has been refilled. */
  datatype Section = Section(tokens: real, stats: Stats, outcome: Outcome)

  function TrySection(tokens: real, stats: Stats, wall: real): Section {
    var counted := Counted(stats, wall);
    if tokens >= 1.0 then Section(tokens - 1.0, Allowed(counted), Granted(0.0))
    else Section(tokens, Throttled(counted), Denied)
  }

  function EnterSection(c: Config, tokens: real, stats: Stats, wall: real, timeout: Option<real>): Section {
    var counted := Counted(stats, wall);
    if tokens >= 1.0 then
      Section(tokens - 1.0, Allowed(counted), Granted(0.0))
    else if c.rate == 0.0 then
      Section(tokens, counted, DividedByZero)
    else
      var wait := (1.0 - tokens) / c.rate;
      if !c.block || wait > timeout.GetOr(c.maxWait) then
        Section(tokens, Throttled(counted), Raised(wait))
      else
        Section(tokens, counted, MustWait(wait))
  }

  function ResumeSection(c: Config, tokens: real, stats: Stats, waited: real): Section {
    if tokens >= 1.0 then
      Section(tokens - 1.0, Allowed(stats).(totalWait := stats.totalWait + waited), Granted(waited))
    else if c.rate == 0.0 then
      Section(tokens, Throttled(stats), DividedByZero)
    else
      Section(tokens, Throttled(stats), Raised((1.0 - tokens) / c.rate))
  }

  function Fresh(c: Config, now: real): Limiter {
    Limiter(c.burst as real, now, NO_STATS)
  }

  /** Both limiter classes: their lock sections are the same statement for statement. */
  class RateLimiter {
    const config: Config
    var tokens: real
    var lastUpdate: real
    var stats: Stats

    ghost function Value(): Limiter
      reads this
    {
      Limiter(tokens, lastUpdate, stats)
    }

    /** The state and outcome of a lock section that starts by refilling to `now`. */
    ghost predicate Ran(now: real, s: Section)
      reads this
    {
      Value() == Limiter(s.tokens, now, s.stats)
    }

    constructor (config: Config, now: real)
      ensures this.config == config && Value() == Fresh(config, now)
    {
      this.config := config;
      tokens, lastUpdate, stats := config.burst as real, now, NO_STATS;
    }

    method RefillTokens(now: real)
      modifies this`tokens, this`lastUpdate
      ensures tokens == Refilled(config, old(Value()), now) && lastUpdate == now
    {
      var elapsed := now - lastUpdate;
      lastUpdate := now;
      var tokensToAdd := elapsed * config.rate;
      tokens := if tokens + tokensToAdd < config.burst as real
                then tokens + tokensToAdd else config.burst as real;
    }

    /** None is the ZeroDivisionError of a limiter whose rate is zero. */
    method CalculateWaitTime() returns (wait: Option<real>)
      ensures tokens >= 1.0 ==> wait == Some(0.0)
      ensures wait == None <==> tokens < 1.0 && config.rate == 0.0
      // waiting that long is exactly what brings the level up to one token
      ensures tokens < 1.0 && wait.Some? ==> tokens + wait.value * config.rate == 1.0
    {
      if tokens >= 1.0 {
        return Some(0.0);
      }
      var tokensNeeded := 1.0 - tokens;
      if config.rate == 0.0 {
        return None;
      }
      wait := Some(tokensNeeded / config.rate);
    }

    method AvailableTokens(now: real) returns (level: real)
      modifies this
      ensures level == Refilled(config, old(Value()), now)
      ensures Value() == Limiter(level, now, old(stats))
    {
      RefillTokens(now);
      level := tokens;
    }

    method TryAcquire(now: real, wall: real) returns (ok: bool)
      modifies this
      ensures Ran(now, TrySection(Refilled(config, old(Value()), now), old(stats), wall))
      ensures ok <==> TrySection(Refilled(config, old(Value()), now), old(stats), wall).outcome.Granted?
    {
      RefillTokens(now);
      stats := stats.(total := stats.total + 1);
      stats := stats.(lastRequest := Some(wall));
      if tokens >= 1.0 {
        tokens := tokens - 1.0;
        stats := stats.(allowed := stats.allowed + 1);
        ok := true;
      } else {
        stats := stats.(throttled := stats.throttled + 1);
        ok := false;
      }
    }

    /** The first lock section of `acquire`. */
    method AcquireEnter(now: real, wall: real, timeout: Option<real>) returns (outcome: Outcome)
      modifies this
      ensures Ran(now, EnterSection(config, Refilled(config, old(Value()), now), old(stats), wall, timeout))
      ensures outcome == EnterSection(config, Refilled(config, old(Value()), now), old(stats), wall, timeout).outcome
    {
      var limit := if timeout.Some? then timeout.value else config.maxWait;
      RefillTokens(now);
      stats := stats.(total := stats.total + 1);
      stats := stats.(lastRequest := Some(wall));
      if tokens >= 1.0 {
        tokens := tokens - 1.0;
        stats := stats.(allowed := stats.allowed + 1);
        return Granted(0.0);
      }
      var wait := CalculateWaitTime();
      if wait == None {
        return DividedByZero;
      }
      WaitIsQuotient(tokens, wait.value, config.rate);
      if !config.block {
        stats := stats.(throttled := stats.throttled + 1);
        return Raised(wait.value);
      }
      if wait.value > limit {
        stats := stats.(throttled := stats.throttled + 1);
        return Raised(wait.value);
      }
      outcome := MustWait(wait.value);
    }

    /** The second lock section of `acquire`, after the sleep; `done` is its second clock reading. */
    method AcquireResume(start: real, now: real, done: real) returns (outcome: Outcome)
      modifies this
      ensures Ran(now, ResumeSection(config, Refilled(config, old(Value()), now), old(stats), done - start))
      ensures outcome == ResumeSection(config, Refilled(config, old(Value()), now), old(stats), done - start).outcome
    {
      RefillTokens(now);
      if tokens >= 1.0 {
        tokens := tokens - 1.0;
        stats := stats.(allowed := stats.allowed + 1);
        var actualWait := done - start;
        stats := stats.(totalWait := stats.totalWait + actualWait);
        outcome := Granted(actualWait);
      } else {
        stats := stats.(throttled := stats.throttled + 1);
        var wait := CalculateWaitTime();
        if wait == None {
          return DividedByZero;
        }
        WaitIsQuotient(tokens, wait.value, config.rate);
        outcome := Raised(wait.value);
      }
    }

    method Reset(now: real)
      modifies this
      ensures Value() == Fresh(config, now)
    {
      tokens := config.burst as real;
      lastUpdate := now;
      stats := NO_STATS;
    }

    method ResetStats()
      modifies this`stats
      ensures stats == NO_STATS
    {
      stats := NO_STATS;
    }
  }

  lemma WaitIsQuotient(tokens: real, wait: real, rate: real)
    requires rate != 0.0 && tokens + wait * rate == 1.0
    ensures wait == (1.0 - tokens) / rate
  {
    assert wait * rate == 1.0 - tokens;
  }
}
