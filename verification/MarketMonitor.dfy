/**
 The fail-closed monitor of docs/multi-exchange-monitor.ts. Poll replies arrive in
 any order; each becomes one call of `handleVerifiedStatus`.
 */
module MarketMonitoring {
  import opened Options

  type Mic = string

  datatype MarketStatus = Open | Closed | Halted | Unknown

  /** `expires` is None when `expires_at` is no date: `new Date` then has no time, and compares as NaN. */
  datatype Receipt = Receipt(id: string, mic: Mic, status: MarketStatus, source: string, expires: Option<int>)

  datatype Entry = Entry(status: MarketStatus, source: string, receiptId: string, expires: Option<int>, updatedAt: int)

  /** What a poll of `mic` came to, and the clock when it was handled. */
  datatype Answer =
    | BadResponse                // not ok, a network error, a timeout, no JSON
    | BadSignature(receipt: Receipt)
    | VerifierThrew(receipt: Receipt)
    | Verified(receipt: Receipt)

  datatype Reply = Reply(mic: Mic, answer: Answer, now: int)

  /** One round of handler calls. */
  datatype Event = Event(mic: Mic, previous: Option<MarketStatus>, current: MarketStatus, receipt: Option<Receipt>)

  /** A throwing verifier rejects the poll before the handler is called. */
  predicate Handled(r: Reply) {
    !r.answer.VerifierThrew?
  }

  function Reported(r: Reply): MarketStatus {
    if r.answer.Verified? then r.answer.receipt.status else Unknown
  }

  function Attested(r: Reply): Option<Receipt> {
    if r.answer.Verified? then Some(r.answer.receipt) else None
  }

  const GRACE := 60_000

  /** The entry of a market after one of its replies. */
  function NextEntry(prev: Option<Entry>, r: Reply): Option<Entry> {
    if r.answer.Verified? then
      var v := r.answer.receipt;
      Some(Entry(v.status, v.source, v.id, v.expires,
                 if prev.Some? && prev.value.status == v.status then prev.value.updatedAt else r.now))
    else if prev == None then Some(Entry(Unknown, "SYSTEM", "", Some(r.now + GRACE), r.now))
    else prev
  }

  function Look<V>(m: map<Mic, V>, mic: Mic): Option<V> {
    if mic in m then Some(m[mic]) else None
  }

  function StatusOf(state: map<Mic, Entry>, mic: Mic): Option<MarketStatus> {
    if mic in state then Some(state[mic].status) else None
  }

  function NextState(state: map<Mic, Entry>, r: Reply): map<Mic, Entry> {
    if Handled(r) then state[r.mic := NextEntry(Look(state, r.mic), r).value] else state
  }

  /** The events a reply fires: none or one. */
  function Fired(state: map<Mic, Entry>, r: Reply): seq<Event> {
    if !Handled(r) || StatusOf(state, r.mic) == Some(Reported(r)) then []
    else [Event(r.mic, StatusOf(state, r.mic), Reported(r), Attested(r))]
  }

  /** Past its expiry; an unreadable expiry never is. */
  predicate Expired(expires: Option<int>, now: int) {
    expires.Some? && now > expires.value
  }

  predicate ConfirmedOpen(state: map<Mic, Entry>, mic: Mic, now: int) {
    mic in state && !Expired(state[mic].expires, now) && state[mic].status == Open
  }

  class MultiExchangeMonitor {
    var state: map<Mic, Entry>
    var log: seq<Event>     // every round of handler calls, oldest first

    constructor ()
      ensures state == map[] && log == []
    {
      state, log := map[], [];
    }

    method GetStatus(mic: Mic) returns (status: Option<MarketStatus>)
      ensures status == StatusOf(state, mic)
    {
      status := if mic in state then Some(state[mic].status) else None;
    }

    method IsConfirmedOpen(mic: Mic, now: int) returns (open: bool)
      ensures open <==> ConfirmedOpen(state, mic, now)
    {
      if mic !in state {
        return false;
      }
      var s := state[mic];
      if s.expires.Some? && now > s.expires.value {
        return false;
      }
      open := s.status == Open;
    }

    /** The tail of `fetchAndVerify`, from the reply on. */
    method FetchAndVerify(r: Reply)
      modifies this
      ensures state == NextState(old(state), r)
      ensures log == old(log) + Fired(old(state), r)
    {
      match r.answer {
        case BadResponse => HandleVerifiedStatus(r.mic, Unknown, None, r.now);
        case BadSignature(_) => HandleVerifiedStatus(r.mic, Unknown, None, r.now);
        case VerifierThrew(_) =>
        case Verified(receipt) => HandleVerifiedStatus(r.mic, receipt.status, Some(receipt), r.now);
      }
    }

    method HandleVerifiedStatus(mic: Mic, status: MarketStatus, receipt: Option<Receipt>, now: int)
      requires if receipt.Some? then status == receipt.value.status else status == Unknown
      modifies this
      ensures var r := Reply(mic, if receipt.Some? then Verified(receipt.value) else BadResponse, now);
              state == NextState(old(state), r) && log == old(log) + Fired(old(state), r)
    {
      var prev := Look(state, mic);
      var prevStatus := if prev.Some? then Some(prev.value.status) else None;
      if receipt.Some? {
        var v := receipt.value;
        var updatedAt := if prevStatus != Some(status) then now else prev.value.updatedAt;
        state := state[mic := Entry(status, v.source, v.id, v.expires, updatedAt)];
      } else if prev == None {
        state := state[mic := Entry(Unknown, "SYSTEM", "", Some(now + GRACE), now)];
      }
      if prevStatus != Some(status) {
        log := log + [Event(mic, prevStatus, status, receipt)];
      }
    }
  }

  // ----- whole runs -----

  function States(replies: seq<Reply>): map<Mic, Entry> {
    if replies == [] then map[] else NextState(States(replies[..|replies| - 1]), replies[|replies| - 1])
  }

  function Log(replies: seq<Reply>): seq<Event> {
    if replies == [] then []
    else
      var before := replies[..|replies| - 1];
      Log(before) + Fired(States(before), replies[|replies| - 1])
  }

  /** The last receipt for a poll of `mic` that passed verification. */
  function LastVerified(replies: seq<Reply>, mic: Mic): Option<Receipt> {
    if replies == [] then None
    else
      var r := replies[|replies| - 1];
      if r.mic == mic && r.answer.Verified? then Some(r.answer.receipt)
      else LastVerified(replies[..|replies| - 1], mic)
  }

  predicate Polled(replies: seq<Reply>, mic: Mic) {
    exists k :: 0 <= k < |replies| && replies[k].mic == mic && Handled(replies[k])
  }

  /** What is stored for a market is its last verified receipt, or the UNKNOWN of failed polls alone. */
  lemma {:induction false} StoresLastVerified(replies: seq<Reply>, mic: Mic)
    ensures var s, v := States(replies), LastVerified(replies, mic);
            && (mic in s <==> Polled(replies, mic))
            && (v.Some? ==> mic in s && s[mic].status == v.value.status && s[mic].expires == v.value.expires
                            && s[mic].receiptId == v.value.id && s[mic].source == v.value.source)
            && (v == None && mic in s ==>
                  && s[mic].status == Unknown && s[mic].source == "SYSTEM" && s[mic].receiptId == ""
                  && s[mic].expires == Some(s[mic].updatedAt + 60_000))
  {
    if replies == [] {
    } else {
      var before, r := replies[..|replies| - 1], replies[|replies| - 1];
      StoresLastVerified(before, mic);
      if Polled(before, mic) {
        var k :| 0 <= k < |before| && before[k].mic == mic && Handled(before[k]);
        assert replies[k].mic == mic && Handled(replies[k]);
      }
      if r.mic == mic && Handled(r) {
        assert replies[|replies| - 1].mic == mic;
      } else if Polled(replies, mic) {
        var k :| 0 <= k < |replies| && replies[k].mic == mic && Handled(replies[k]);
        assert before[k].mic == mic;
      }
    }
  }

  /**
   Main result: over every interleaving of replies the monitor says OPEN exactly
   when the last verified receipt for that poll did and has not expired.
   */
  lemma {:induction false} ConfirmedOpenIsLastVerifiedOpen(replies: seq<Reply>, mic: Mic, now: int)
    ensures ConfirmedOpen(States(replies), mic, now)
            <==> var v := LastVerified(replies, mic);
                 v.Some? && v.value.status == Open && !Expired(v.value.expires, now)
  {
    StoresLastVerified(replies, mic);
  }

  lemma {:induction false} FailedPollsKeepLastVerified(replies: seq<Reply>, failed: seq<Reply>, mic: Mic)
    requires forall r :: r in failed && r.mic == mic ==> !r.answer.Verified?
    ensures LastVerified(replies + failed, mic) == LastVerified(replies, mic)
  {
    if failed == [] {
      assert replies + failed == replies;
    } else {
      assert (replies + failed)[..|replies + failed| - 1] == replies + failed[..|failed| - 1];
      FailedPollsKeepLastVerified(replies, failed[..|failed| - 1], mic);
    }
  }

  ghost predicate ClosedAfter(state: map<Mic, Entry>, mic: Mic, t: int) {
    forall now :: now > t ==> !ConfirmedOpen(state, mic, now)
  }

  /**
   Fail-closed: once only failed polls follow, an OPEN is over when its receipt
   expires, and it is ever over exactly when that expiry can be read as a date.
   */
  lemma OutageClosesAtExpiry(replies: seq<Reply>, failed: seq<Reply>, mic: Mic, state: map<Mic, Entry>, v: Receipt)
    requires forall r :: r in failed && r.mic == mic ==> !r.answer.Verified?
    requires LastVerified(replies, mic) == Some(v) && v.status == Open
    requires state == States(replies + failed)
    ensures v.expires.Some? ==> forall now :: ConfirmedOpen(state, mic, now) <==> now <= v.expires.value
    ensures v.expires.Some? <==> exists t :: ClosedAfter(state, mic, t)
  {
    FailedPollsKeepLastVerified(replies, failed, mic);
    forall now
      ensures ConfirmedOpen(state, mic, now) <==> !Expired(v.expires, now)
    {
      ConfirmedOpenIsLastVerifiedOpen(replies + failed, mic, now);
    }
    if v.expires.Some? {
      assert ClosedAfter(state, mic, v.expires.value);
    } else {
      forall t: int
        ensures !ClosedAfter(state, mic, t)
      {
        assert ConfirmedOpen(state, mic, t + 1);
      }
    }
  }

  /** A receipt whose expiry is no date keeps a market open for good. */
  lemma UnreadableExpiryNeverCloses(now: int)
    ensures var r := Receipt("r", "XNYS", Open, "SCHEDULE", None);
            ConfirmedOpen(States([Reply("XNYS", Verified(r), 0)]), "XNYS", now)
  {
    var r := Receipt("r", "XNYS", Open, "SCHEDULE", None);
    assert [Reply("XNYS", Verified(r), 0)][..0] == [];
  }

  function Only(replies: seq<Reply>, mic: Mic): seq<Reply> {
    if replies == [] then []
    else
      var r := replies[|replies| - 1];
      Only(replies[..|replies| - 1], mic) + if r.mic == mic then [r] else []
  }

  function OnlyEvents(log: seq<Event>, mic: Mic): seq<Event> {
    if log == [] then []
    else
      var e := log[|log| - 1];
      OnlyEvents(log[..|log| - 1], mic) + if e.mic == mic then [e] else []
  }

  /** A reply reads and writes its own market's entry only. */
  lemma ReplyIsLocal(s: map<Mic, Entry>, s': map<Mic, Entry>, r: Reply, mic: Mic)
    requires Look(s, mic) == Look(s', mic)
    ensures r.mic != mic ==> Look(NextState(s, r), mic) == Look(s, mic) && OnlyEvents(Fired(s, r), mic) == []
    ensures r.mic == mic ==> Look(NextState(s, r), mic) == Look(NextState(s', r), mic) && Fired(s, r) == Fired(s', r)
  {
    if r.mic != mic && Fired(s, r) != [] {
      assert Fired(s, r)[..0] == [];
    }
  }

  lemma ReplyKeepsAgreement(s: map<Mic, Entry>, s': map<Mic, Entry>, log: seq<Event>, log': seq<Event>,
                            r: Reply, mic: Mic)
    requires Look(s, mic) == Look(s', mic) && OnlyEvents(log, mic) == OnlyEvents(log', mic)
    ensures r.mic != mic ==> Look(NextState(s, r), mic) == Look(s', mic)
                             && OnlyEvents(log + Fired(s, r), mic) == OnlyEvents(log', mic)
    ensures r.mic == mic ==> Look(NextState(s, r), mic) == Look(NextState(s', r), mic)
                             && OnlyEvents(log + Fired(s, r), mic) == OnlyEvents(log' + Fired(s', r), mic)
  {
    ReplyIsLocal(s, s', r, mic);
    EventsAppend(log, Fired(s, r), mic);
    EventsAppend(log', Fired(s', r), mic);
  }

  /** Markets do not disturb one another: entry and events depend on the market's own replies alone. */
  lemma {:induction false} MarketsAreIndependent(replies: seq<Reply>, mic: Mic)
    ensures Look(States(replies), mic) == Look(States(Only(replies, mic)), mic)
    ensures OnlyEvents(Log(replies), mic) == OnlyEvents(Log(Only(replies, mic)), mic)
  {
    if replies == [] {
    } else {
      var before, r := replies[..|replies| - 1], replies[|replies| - 1];
      var own := Only(before, mic);
      MarketsAreIndependent(before, mic);
      ReplyKeepsAgreement(States(before), States(own), Log(before), Log(own), r, mic);
      OneMore(own, r);
      assert own + [] == own;
    }
  }

  lemma OneMore(replies: seq<Reply>, r: Reply)
    ensures States(replies + [r]) == NextState(States(replies), r)
    ensures Log(replies + [r]) == Log(replies) + Fired(States(replies), r)
  {
    assert (replies + [r])[..|replies + [r]| - 1] == replies;
  }

  lemma EventsAppend(log: seq<Event>, more: seq<Event>, mic: Mic)
    requires |more| <= 1
    ensures OnlyEvents(log + more, mic) == OnlyEvents(log, mic) + OnlyEvents(more, mic)
  {
    if more == [] {
      assert log + more == log;
    } else {
      assert (log + more)[..|log + more| - 1] == log && more[..0] == [];
    }
  }

  // ----- replaying the event log -----

  /** What a listener that keeps the verified reports has on record. */
  function Replayed(log: seq<Event>, mic: Mic): Option<MarketStatus> {
    if log == [] then None
    else
      var e, before := log[|log| - 1], Replayed(log[..|log| - 1], mic);
      if e.mic != mic then before
      else if e.receipt.Some? || before == None then Some(e.current)
      else before
  }

  /** The event tells the stored status as its previous one, is a change, and says UNKNOWN without a receipt. */
  predicate Tells(log: seq<Event>, e: Event) {
    && e.previous == Replayed(log, e.mic)
    && e.previous != Some(e.current)
    && e.current == if e.receipt.Some? then e.receipt.value.status else Unknown
  }

  predicate Truthful(log: seq<Event>) {
    forall k :: 0 <= k < |log| ==> Tells(log[..k], log[k])
  }

  lemma ReplayedAppends(log: seq<Event>, e: Event, mic: Mic)
    ensures Replayed(log + [e], mic)
            == if e.mic == mic && (e.receipt.Some? || Replayed(log, mic) == None) then Some(e.current)
               else Replayed(log, mic)
  {
    assert (log + [e])[..|log + [e]| - 1] == log;
  }

  lemma TruthfulAppends(log: seq<Event>, e: Event)
    requires Truthful(log) && Tells(log, e)
    ensures Truthful(log + [e])
  {
    forall k | 0 <= k < |log + [e]|
      ensures Tells((log + [e])[..k], (log + [e])[k])
    {
      assert (log + [e])[..k] == log[..k];
      assert k == |log| ==> log[..k] == log;
    }
  }

  lemma ReplyKeepsLogTruthful(s: map<Mic, Entry>, log: seq<Event>, r: Reply, mic: Mic)
    requires StatusOf(s, mic) == Replayed(log, mic) && StatusOf(s, r.mic) == Replayed(log, r.mic)
    requires Truthful(log)
    ensures StatusOf(NextState(s, r), mic) == Replayed(log + Fired(s, r), mic)
    ensures Truthful(log + Fired(s, r))
  {
    if Fired(s, r) != [] {
      ReplayedAppends(log, Fired(s, r)[0], mic);
      TruthfulAppends(log, Fired(s, r)[0]);
    } else {
      assert log + [] == log;
    }
  }

  /** Main result: the log replays to the stored statuses, over every interleaving of replies. */
  lemma {:induction false} LogRebuildsState(replies: seq<Reply>, mic: Mic)
    ensures StatusOf(States(replies), mic) == Replayed(Log(replies), mic)
    ensures Truthful(Log(replies))
  {
    if replies == [] {
    } else {
      var before, r := replies[..|replies| - 1], replies[|replies| - 1];
      LogRebuildsState(before, mic);
      LogRebuildsState(before, r.mic);
      ReplyKeepsLogTruthful(States(before), Log(before), r, mic);
    }
  }

  /** The last event of a market that carried a receipt. */
  function LastReceipted(log: seq<Event>, mic: Mic): Option<Event> {
    if log == [] then None
    else
      var e := log[|log| - 1];
      if e.mic == mic && e.receipt.Some? then Some(e) else LastReceipted(log[..|log| - 1], mic)
  }

  /** In a truthful log the stored status is that of the last receipted event, or UNKNOWN if none carried one. */
  lemma {:induction false} ReplayedIsLastReceipted(log: seq<Event>, mic: Mic)
    requires Truthful(log)
    ensures var e := LastReceipted(log, mic);
            && (e.Some? ==> Replayed(log, mic) == Some(e.value.current))
            && (e == None ==> Replayed(log, mic) == None || Replayed(log, mic) == Some(Unknown))
  {
    if log == [] {
    } else {
      var before := log[..|log| - 1];
      forall k | 0 <= k < |before|
        ensures Tells(before[..k], before[k])
      {
        assert before[..k] == log[..k] && Tells(log[..k], log[k]);
      }
      ReplayedIsLastReceipted(before, mic);
      assert Tells(before, log[|log| - 1]);
    }
  }

  /**
   "State-change events only" is not what the code keeps. A reply fires exactly
   when it reports something else than what is stored, and leaves the stored
   status as it was exactly when it is a failed poll of a market already known.
   */
  lemma FiresAndStores(replies: seq<Reply>, r: Reply)
    requires !r.answer.VerifierThrew?
    ensures var s, s' := States(replies), States(replies + [r]);
            var told := if r.answer.Verified? then r.answer.receipt.status else Unknown;
            && (Log(replies + [r]) != Log(replies) <==> StatusOf(s, r.mic) != Some(told))
            && (StatusOf(s', r.mic) == Some(told) <==>
                r.answer.Verified? || r.mic !in s || s[r.mic].status == Unknown)
            && (Log(replies + [r]) != Log(replies) ==>
                Log(replies + [r]) == Log(replies)
                + [Event(r.mic, StatusOf(s, r.mic), told,
                         if r.answer.Verified? then Some(r.answer.receipt) else None)])
  {
    OneMore(replies, r);
  }

  lemma SameAfter(replies: seq<Reply>, replies': seq<Reply>, last: Reply)
    requires States(replies) == States(replies') && Log(replies) == Log(replies')
    ensures States(replies + [last]) == States(replies' + [last]) && Log(replies + [last]) == Log(replies' + [last])
  {
    OneMore(replies, last);
    OneMore(replies', last);
  }

  lemma OneLater(replies: seq<Reply>, before: seq<Reply>, last: Reply, more: seq<Reply>)
    requires more != [] && before == more[..|more| - 1] && last == more[|more| - 1]
    ensures replies + more == replies + before + [last]
  {
  }

  /** A poll whose verifier throws leaves no trace: neither in the state nor in the log, then or later. */
  lemma {:induction false} ThrowingVerifierIsSilent(replies: seq<Reply>, r: Reply, more: seq<Reply>)
    requires r.answer.VerifierThrew?
    ensures States(replies + [r] + more) == States(replies + more)
    ensures Log(replies + [r] + more) == Log(replies + more)
  {
    if more == [] {
      assert replies + [r] + more == replies + [r] && replies + more == replies;
      OneMore(replies, r);
      assert Log(replies) + [] == Log(replies);
    } else {
      var before, last := more[..|more| - 1], more[|more| - 1];
      ThrowingVerifierIsSilent(replies, r, before);
      SameAfter(replies + [r] + before, replies + before, last);
      OneLater(replies + [r], before, last, more);
      OneLater(replies, before, last, more);
    }
  }

  function Repeat<T>(x: T, n: nat): seq<T> {
    if n == 0 then [] else Repeat(x, n - 1) + [x]
  }

  lemma FailedPollFires(s: map<Mic, Entry>, down: Reply)
    requires down.answer.BadResponse? && down.mic in s && s[down.mic].status != Unknown
    ensures NextState(s, down) == s
    ensures Fired(s, down) == [Event(down.mic, StatusOf(s, down.mic), Unknown, None)]
  {
  }

  /** So an outage repeats itself: after an OPEN, every failed poll fires the same OPEN to UNKNOWN. */
  lemma {:induction false} OutageRepeatsItsEvent(replies: seq<Reply>, down: Reply, e: Event, n: nat)
    requires down.answer.BadResponse? && down.mic in States(replies) && States(replies)[down.mic].status != Unknown
    requires e == Event(down.mic, StatusOf(States(replies), down.mic), Unknown, None)
    ensures States(replies + Repeat(down, n)) == States(replies)
    ensures Log(replies + Repeat(down, n)) == Log(replies) + Repeat(e, n)
  {
    if n == 0 {
      assert replies + Repeat(down, 0) == replies;
    } else {
      OutageRepeatsItsEvent(replies, down, e, n - 1);
      RepeatOnce(replies, replies + Repeat(down, n - 1), down, e);
      RepeatAppends(replies, down, n);
      RepeatAppends(Log(replies), e, n);
    }
  }

  lemma RepeatAppends<T>(xs: seq<T>, x: T, n: nat)
    requires n > 0
    ensures xs + Repeat(x, n) == xs + Repeat(x, n - 1) + [x]
  {
  }

  lemma RepeatOnce(replies: seq<Reply>, more: seq<Reply>, down: Reply, e: Event)
    requires down.answer.BadResponse? && down.mic in States(replies) && States(replies)[down.mic].status != Unknown
    requires e == Event(down.mic, StatusOf(States(replies), down.mic), Unknown, None)
    requires States(more) == States(replies)
    ensures States(more + [down]) == States(replies)
    ensures Log(more + [down]) == Log(more) + [e]
  {
    FailedPollFires(States(replies), down);
    OneMore(more, down);
  }

  // ----- when the status last changed -----

  /** What the replies for a market come to: the last verified report, or UNKNOWN when every poll failed. */
  function LastReport(replies: seq<Reply>, mic: Mic): Option<MarketStatus> {
    var v := LastVerified(replies, mic);
    if v.Some? then Some(v.value.status) else if Polled(replies, mic) then Some(Unknown) else None
  }

  /**
   The present run of equal reports of a market began with reply `k`: it brought
   something new, as only the first failed poll and verified ones can, and every
   verified reply since reports the same.
   */
  predicate RunBegan(replies: seq<Reply>, k: nat, mic: Mic) {
    && k < |replies| && replies[k].mic == mic && Handled(replies[k])
    && LastReport(replies[..k], mic) != Some(Reported(replies[k]))
    && (!replies[k].answer.Verified? ==> !Polled(replies[..k], mic))
    && forall j :: k < j < |replies| && replies[j].mic == mic && replies[j].answer.Verified? ==>
         Reported(replies[j]) == Reported(replies[k])
  }

  lemma PolledOneMore(before: seq<Reply>, r: Reply, mic: Mic)
    ensures Polled(before + [r], mic) <==> Polled(before, mic) || (r.mic == mic && Handled(r))
    ensures LastVerified(before + [r], mic)
            == if r.mic == mic && r.answer.Verified? then Some(r.answer.receipt) else LastVerified(before, mic)
  {
    var replies := before + [r];
    assert replies[..|replies| - 1] == before && replies[|before|] == r;
    if Polled(before, mic) {
      var k :| 0 <= k < |before| && before[k].mic == mic && Handled(before[k]);
      assert replies[k].mic == mic && Handled(replies[k]);
    }
  }

  lemma RunOneMore(before: seq<Reply>, r: Reply, k: nat, mic: Mic)
    requires k < |before|
    ensures RunBegan(before + [r], k, mic)
            <==> RunBegan(before, k, mic)
                 && (r.mic == mic && r.answer.Verified? ==> Reported(r) == Reported(before[k]))
  {
    var replies := before + [r];
    assert replies[..k] == before[..k];
    assert forall j :: 0 <= j < |before| ==> replies[j] == before[j];
    assert replies[|before|] == r;
  }

  lemma RunBeginsNow(before: seq<Reply>, r: Reply, mic: Mic)
    ensures RunBegan(before + [r], |before|, mic)
            <==> && r.mic == mic && Handled(r) && LastReport(before, mic) != Some(Reported(r))
                 && (!r.answer.Verified? ==> !Polled(before, mic))
  {
    assert (before + [r])[..|before|] == before && (before + [r])[|before|] == r;
  }

  /** The report that began the present run is the one that still stands. */
  lemma {:induction false} RunReports(replies: seq<Reply>, k: nat, mic: Mic)
    requires RunBegan(replies, k, mic)
    ensures LastReport(replies, mic) == Some(Reported(replies[k]))
  {
    var before, r := replies[..|replies| - 1], replies[|replies| - 1];
    assert replies == before + [r];
    PolledOneMore(before, r, mic);
    if k == |before| {
      RunBeginsNow(before, r, mic);
      StoresLastVerified(before, mic);
    } else {
      RunOneMore(before, r, k, mic);
      RunReports(before, k, mic);
    }
  }

  /** Main result: `updatedAt` is the time of the reply with which the present run of equal reports began. */
  lemma {:induction false} UpdatedAtIsLastChange(replies: seq<Reply>, mic: Mic)
    ensures mic in States(replies) <==> exists k: nat :: RunBegan(replies, k, mic)
    ensures forall k: nat :: RunBegan(replies, k, mic) ==>
              mic in States(replies) && States(replies)[mic].updatedAt == replies[k].now
  {
    if replies == [] {
    } else {
      var before, r := replies[..|replies| - 1], replies[|replies| - 1];
      assert replies == before + [r];
      UpdatedAtIsLastChange(before, mic);
      StoresLastVerified(before, mic);
      RunBeginsNow(before, r, mic);
      forall k | 0 <= k < |before|
        ensures RunBegan(replies, k, mic)
                <==> RunBegan(before, k, mic)
                     && (r.mic == mic && r.answer.Verified? ==> LastReport(before, mic) == Some(Reported(r)))
      {
        RunOneMore(before, r, k, mic);
        if RunBegan(before, k, mic) {
          RunReports(before, k, mic);
        }
      }
      RunGoesOn(before, r, mic);
    }
  }

  /** A reply either begins a run or leaves the time of the entry alone. */
  lemma RunGoesOn(before: seq<Reply>, r: Reply, mic: Mic)
    ensures var s, s' := States(before), States(before + [r]);
            if RunBegan(before + [r], |before|, mic) then mic in s' && s'[mic].updatedAt == r.now
            else (mic in s' <==> mic in s) && (mic in s ==> s'[mic].updatedAt == s[mic].updatedAt)
  {
    OneMore(before, r);
    StoresLastVerified(before, mic);
    RunBeginsNow(before, r, mic);
  }
}
