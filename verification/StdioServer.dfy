/**
 The stdio JSON-RPC server (cli.js): lines come in, handlers run concurrently and
 finish in any order, and the process exits when stdin is closed and nothing is in
 flight. Every event of the Node loop is one step.
 */
module StdioServer {
  import opened Options

  type Id = string

  datatype Method = Initialize | Ping | ToolsList | ToolsCall | ResourcesList | PromptsList | Other(name: string)

  /** A line after `trim`; `Message` is any JSON value but null, without an id unless it is an object with one. */
  datatype Line =
    | Blank
    | NotJson
    | Null
    | Message(id: Option<Id>, rpc: Method)

  datatype Content =
    | Result(of: Method)
    | Forwarded              // what the remote answered, as it is
    | RemoteError            // -32603
    | MethodNotFound         // -32601
    | ParseError             // -32700

  /** `request` is the number of the line it answers; the id is None for JSON null. */
  datatype Response = Response(request: nat, id: Option<Id>, content: Content)

  /** What a remote call comes to: a JSON document with some id, or an error. */
  datatype Remote = Answered(id: Option<Id>) | Failed

  /** A handler in flight: waiting for the remote, or done and about to run its `finally`. */
  datatype Stage = Awaiting(id: Id) | Settled

  datatype Exit = Running | Exited | Crashed

  datatype State = State(
    seen: seq<Line>,              // the lines so far
    out: seq<Response>,           // what was written to stdout
    inFlight: map<nat, Stage>,    // the handlers between pending++ and pending--
    pending: int,
    stdinClosed: bool,
    exit: Exit)

  const START := State([], [], map[], 0, false, Running)

  predicate Proxied(m: Method) {
    m.ToolsList? || m.ToolsCall?
  }

  function LocalContent(m: Method): Content {
    if m.Other? then MethodNotFound else Result(m)
  }

  datatype Event =
    | OnLine(line: Line)
    | OnRemote(request: nat, remote: Remote)
    | OnFinally(request: nat)
    | OnClose

  predicate Enabled(s: State, e: Event) {
    && s.exit.Running?
    && match e
       case OnLine(_) => !s.stdinClosed
       case OnRemote(n, _) => n in s.inFlight && s.inFlight[n].Awaiting?
       case OnFinally(n) => n in s.inFlight && s.inFlight[n].Settled?
       case OnClose => !s.stdinClosed
  }

  /** `tryExit`. */
  function TryExit(s: State): State {
    if s.stdinClosed && s.pending == 0 then s.(exit := Exited) else s
  }

  function Apply(s: State, e: Event): State
    requires Enabled(s, e)
  {
    match e
    case OnLine(line) =>
      var n, read := |s.seen|, s.(seen := s.seen + [line]);
      (match line
       case Blank => read
       case NotJson => read.(out := s.out + [Response(n, None, ParseError)])
       case Null => read.(exit := Crashed)
       case Message(id, m) =>
         var started := read.(pending := s.pending + 1);
         if id == None then started.(inFlight := s.inFlight[n := Settled])
         else if Proxied(m) then started.(inFlight := s.inFlight[n := Awaiting(id.value)])
         else started.(inFlight := s.inFlight[n := Settled],
                       out := s.out + [Response(n, id, LocalContent(m))]))
    case OnRemote(n, remote) =>
      s.(inFlight := s.inFlight[n := Settled],
         out := s.out + [match remote
                         case Answered(id) => Response(n, id, Forwarded)
                         case Failed => Response(n, Some(s.inFlight[n].id), RemoteError)])
    case OnFinally(n) => TryExit(s.(inFlight := s.inFlight - {n}, pending := s.pending - 1))
    case OnClose => TryExit(s.(stdinClosed := true))
  }

  class Server {
    var seen: seq<Line>
    var out: seq<Response>
    var inFlight: map<nat, Stage>
    var pending: int
    var stdinClosed: bool
    var exit: Exit

    ghost function Value(): State
      reads this
    {
      State(seen, out, inFlight, pending, stdinClosed, exit)
    }

    constructor ()
      ensures Value() == START
    {
      seen, out, inFlight, pending, stdinClosed, exit := [], [], map[], 0, false, Running;
    }

    method Send(r: Response)
      modifies this`out
      ensures out == old(out) + [r]
    {
      out := out + [r];
    }

    method TryToExit()
      modifies this`exit
      ensures Value() == TryExit(old(Value()))
    {
      if stdinClosed && pending == 0 {
        exit := Exited;
      }
    }

    /** The line handler up to its first await that has to wait. */
    method ReceiveLine(line: Line)
      requires Enabled(Value(), OnLine(line))
      modifies this
      ensures Value() == Apply(old(Value()), OnLine(line))
    {
      var n := |seen|;
      seen := seen + [line];
      match line {
        case Blank =>
        case NotJson => Send(Response(n, None, ParseError));
        case Null => exit := Crashed;   // `msg.id` throws inside the catch block
        case Message(id, m) =>
          pending := pending + 1;
          HandleMessage(n, id, m);
      }
    }

    method HandleMessage(n: nat, id: Option<Id>, m: Method)
      modifies this`inFlight, this`out
      ensures inFlight == old(inFlight)[n := if id.Some? && Proxied(m) then Awaiting(id.value) else Settled]
      ensures out == old(out) + if id.Some? && !Proxied(m) then [Response(n, id, LocalContent(m))] else []
    {
      inFlight := inFlight[n := Settled];
      if id == None {
        return;
      }
      match m {
        case Initialize => Send(Response(n, id, Result(Initialize)));
        case Ping => Send(Response(n, id, Result(Ping)));
        case ToolsList => inFlight := inFlight[n := Awaiting(id.value)];
        case ToolsCall => inFlight := inFlight[n := Awaiting(id.value)];
        case ResourcesList => Send(Response(n, id, Result(ResourcesList)));
        case PromptsList => Send(Response(n, id, Result(PromptsList)));
        case Other(_) => Send(Response(n, id, MethodNotFound));
      }
    }

    /** `proxyToRemote` settles. */
    method ResumeProxy(n: nat, remote: Remote)
      requires Enabled(Value(), OnRemote(n, remote))
      modifies this
      ensures Value() == Apply(old(Value()), OnRemote(n, remote))
    {
      match remote {
        case Answered(id) => Send(Response(n, id, Forwarded));
        case Failed => Send(Response(n, Some(inFlight[n].id), RemoteError));
      }
      inFlight := inFlight[n := Settled];
    }

    method Finally(n: nat)
      requires Enabled(Value(), OnFinally(n))
      modifies this
      ensures Value() == Apply(old(Value()), OnFinally(n))
    {
      inFlight := inFlight - {n};
      pending := pending - 1;
      TryToExit();
    }

    method Close()
      requires Enabled(Value(), OnClose)
      modifies this
      ensures Value() == Apply(old(Value()), OnClose)
    {
      stdinClosed := true;
      TryToExit();
    }
  }

  // ----- whole runs -----

  predicate Run(s: State, es: seq<Event>)
    decreases |es|
  {
    es == [] || (Enabled(s, es[0]) && Run(Apply(s, es[0]), es[1..]))
  }

  function Final(s: State, es: seq<Event>): State
    requires Run(s, es)
    decreases |es|
  {
    if es == [] then s else Final(Apply(s, es[0]), es[1..])
  }

  predicate IsNull(e: Event) {
    e.OnLine? && e.line.Null?
  }

  predicate NoNull(es: seq<Event>) {
    forall i :: 0 <= i < |es| ==> !IsNull(es[i])
  }

  /** Line `n` must be answered: it asks for something, or it is no JSON. */
  predicate Owed(s: State, n: nat)
    requires n < |s.seen|
  {
    s.seen[n].NotJson? || (s.seen[n].Message? && s.seen[n].id.Some?)
  }

  predicate InFlightAwaiting(s: State, n: nat) {
    n in s.inFlight && s.inFlight[n].Awaiting?
  }

  /** The number of responses to line `n`. */
  function Answers(out: seq<Response>, n: nat): nat {
    if out == [] then 0
    else Answers(out[..|out| - 1], n) + if out[|out| - 1].request == n then 1 else 0
  }

  /** The handler started by line `n`, a message; if it waits, it has that message's id, and is about tools. */
  predicate Serves(seen: seq<Line>, n: nat, stage: Stage) {
    && n < |seen| && seen[n].Message?
    && (stage.Awaiting? ==> seen[n].id == Some(stage.id) && (seen[n].rpc == ToolsList || seen[n].rpc == ToolsCall))
  }

  /** The handlers in flight are counted, and each knows the request it serves. */
  ghost predicate FlightInv(s: State) {
    && s.pending == |s.inFlight|
    && (forall n :: n in s.inFlight ==> Serves(s.seen, n, s.inFlight[n]))
    && (s.exit.Exited? <==> s.stdinClosed && s.pending == 0)
    && !s.exit.Crashed?
  }

  /** Line `n` has the answers it is owed so far. */
  predicate Settles(s: State, n: nat)
    requires n < |s.seen|
  {
    Answers(s.out, n) == if Owed(s, n) && !InFlightAwaiting(s, n) then 1 else 0
  }

  ghost predicate AnswerInv(s: State) {
    && (forall k :: 0 <= k < |s.out| ==> s.out[k].request < |s.seen|)
    && (forall n: nat :: n < |s.seen| ==> Settles(s, n))
  }

  ghost predicate Inv(s: State) {
    FlightInv(s) && AnswerInv(s)
  }

  lemma AnswersAppend(out: seq<Response>, r: Response, n: nat)
    ensures Answers(out + [r], n) == Answers(out, n) + if r.request == n then 1 else 0
  {
    assert (out + [r])[..|out + [r]| - 1] == out;
  }

  lemma {:induction false} NoAnswersAhead(out: seq<Response>, n: nat)
    requires forall k :: 0 <= k < |out| ==> out[k].request < n
    ensures Answers(out, n) == 0
  {
    if out == [] {
    } else {
      NoAnswersAhead(out[..|out| - 1], n);
    }
  }

  lemma LineKeepsFlight(s: State, line: Line)
    requires FlightInv(s) && Enabled(s, OnLine(line)) && !line.Null?
    ensures FlightInv(Apply(s, OnLine(line)))
  {
    var s', n := Apply(s, OnLine(line)), |s.seen|;
    forall m | m in s'.inFlight
      ensures Serves(s'.seen, m, s'.inFlight[m])
    {
      if m in s.inFlight {
        assert Serves(s.seen, m, s.inFlight[m]);
      }
    }
    if line.Message? {
      MoreInFlight(s.inFlight, n, s'.inFlight[n]);
    }
  }

  lemma MoreInFlight(m: map<nat, Stage>, n: nat, stage: Stage)
    requires n !in m
    ensures |m[n := stage]| == |m| + 1
  {
    assert m[n := stage].Keys == m.Keys + {n};
    assert |m[n := stage]| == |m[n := stage].Keys| && |m| == |m.Keys|;
  }

  lemma RemoteKeepsFlight(s: State, n: nat, remote: Remote)
    requires FlightInv(s) && Enabled(s, OnRemote(n, remote))
    ensures FlightInv(Apply(s, OnRemote(n, remote)))
  {
    var s' := Apply(s, OnRemote(n, remote));
    assert s'.inFlight.Keys == s.inFlight.Keys;
    assert |s'.inFlight| == |s'.inFlight.Keys| && |s.inFlight| == |s.inFlight.Keys|;
  }

  lemma FinallyKeepsFlight(s: State, n: nat)
    requires FlightInv(s) && Enabled(s, OnFinally(n))
    ensures FlightInv(Apply(s, OnFinally(n)))
  {
    var s' := Apply(s, OnFinally(n));
    assert s'.inFlight.Keys == s.inFlight.Keys - {n};
    assert |s'.inFlight| == |s'.inFlight.Keys| && |s.inFlight| == |s.inFlight.Keys|;
  }

  lemma FlightIsKept(s: State, e: Event)
    requires FlightInv(s) && Enabled(s, e) && !IsNull(e)
    ensures FlightInv(Apply(s, e))
  {
    match e {
      case OnLine(line) => LineKeepsFlight(s, line);
      case OnRemote(n, remote) => RemoteKeepsFlight(s, n, remote);
      case OnFinally(n) => FinallyKeepsFlight(s, n);
      case OnClose =>
    }
  }

  /** What a step writes to stdout. */
  function Written(s: State, e: Event): seq<Response>
    requires Enabled(s, e)
  {
    match e
    case OnLine(NotJson) => [Response(|s.seen|, None, ParseError)]
    case OnLine(Message(id, m)) => if id.Some? && !Proxied(m) then [Response(|s.seen|, id, LocalContent(m))] else []
    case OnRemote(n, Answered(id)) => [Response(n, id, Forwarded)]
    case OnRemote(n, Failed) => [Response(n, Some(s.inFlight[n].id), RemoteError)]
    case _ => []
  }

  lemma StepWrites(s: State, e: Event)
    requires Enabled(s, e)
    ensures Apply(s, e).out == s.out + Written(s, e)
    ensures Apply(s, e).seen == if e.OnLine? then s.seen + [e.line] else s.seen
  {
  }

  lemma WrittenCounts(out: seq<Response>, more: seq<Response>, n: nat)
    requires |more| <= 1
    ensures Answers(out + more, n) == Answers(out, n) + if |more| == 1 && more[0].request == n then 1 else 0
  {
    if more == [] {
      assert out + more == out;
    } else {
      AnswersAppend(out, more[0], n);
      assert out + more == out + [more[0]];
    }
  }

  /** A line seen before the step. */
  lemma OldLineSettles(s: State, e: Event, n: nat)
    requires FlightInv(s) && Enabled(s, e) && !IsNull(e)
    requires n < |s.seen| && Settles(s, n)
    ensures n < |Apply(s, e).seen| && Settles(Apply(s, e), n)
  {
    StepWrites(s, e);
    WrittenCounts(s.out, Written(s, e), n);
    OnlyRemotesAnswerOldLines(s, e, n);
    var s' := Apply(s, e);
    assert s'.seen[n] == s.seen[n] && Owed(s', n) == Owed(s, n);
  }

  lemma OnlyRemotesAnswerOldLines(s: State, e: Event, n: nat)
    requires FlightInv(s) && Enabled(s, e) && !IsNull(e) && n < |s.seen|
    ensures |Written(s, e)| <= 1
    ensures |Written(s, e)| == 1 && Written(s, e)[0].request == n <==> e.OnRemote? && e.request == n
    ensures InFlightAwaiting(Apply(s, e), n) <==> InFlightAwaiting(s, n) && !(e.OnRemote? && e.request == n)
    ensures e.OnRemote? && e.request == n ==> Owed(s, n) && InFlightAwaiting(s, n)
  {
    if e.OnRemote? {
      assert Serves(s.seen, e.request, s.inFlight[e.request]);
    }
  }

  /** The line that the step brings. */
  lemma NewLineSettles(s: State, line: Line)
    requires Inv(s) && Enabled(s, OnLine(line)) && !line.Null?
    ensures Settles(Apply(s, OnLine(line)), |s.seen|)
  {
    StepWrites(s, OnLine(line));
    NoAnswersAhead(s.out, |s.seen|);
    WrittenCounts(s.out, Written(s, OnLine(line)), |s.seen|);
    assert |s.seen| !in s.inFlight;
  }

  lemma WritesAboutSeenLines(s: State, e: Event, k: nat)
    requires Inv(s) && Enabled(s, e) && !IsNull(e) && k < |Apply(s, e).out|
    ensures Apply(s, e).out[k].request < |Apply(s, e).seen|
  {
    StepWrites(s, e);
    if k < |s.out| {
      assert Apply(s, e).out[k] == s.out[k];
    } else if e.OnRemote? {
      assert Serves(s.seen, e.request, s.inFlight[e.request]);
    }
  }

  lemma LineSettles(s: State, e: Event, n: nat)
    requires Inv(s) && Enabled(s, e) && !IsNull(e) && n < |Apply(s, e).seen|
    ensures Settles(Apply(s, e), n)
  {
    StepWrites(s, e);
    if n < |s.seen| {
      assert Settles(s, n);
      OldLineSettles(s, e, n);
    } else {
      NewLineSettles(s, e.line);
    }
  }

  lemma StepKeepsInv(s: State, e: Event)
    requires Inv(s) && Enabled(s, e) && !IsNull(e)
    ensures Inv(Apply(s, e))
  {
    FlightIsKept(s, e);
    forall k: nat | k < |Apply(s, e).out|
      ensures Apply(s, e).out[k].request < |Apply(s, e).seen|
    {
      WritesAboutSeenLines(s, e, k);
    }
    forall n: nat | n < |Apply(s, e).seen|
      ensures Settles(Apply(s, e), n)
    {
      LineSettles(s, e, n);
    }
  }

  lemma {:induction false} RunKeepsInv(s: State, es: seq<Event>)
    requires Inv(s) && Run(s, es) && NoNull(es)
    ensures Inv(Final(s, es))
    decreases |es|
  {
    if es == [] {
    } else {
      StepKeepsInv(s, es[0]);
      RunKeepsInv(Apply(s, es[0]), es[1..]);
    }
  }

  /**
   Main result: in every run without a null line, `pending` counts the handlers in
   flight, no line is answered twice, notifications and blank lines never, and
   everything else once, except what still waits for the remote.
   */
  lemma EachRequestIsAnsweredOnce(es: seq<Event>, n: nat)
    requires Run(START, es) && NoNull(es) && n < |Final(START, es).seen|
    ensures var s := Final(START, es);
            && s.pending == |s.inFlight|
            && Answers(s.out, n) == if Owed(s, n) && !InFlightAwaiting(s, n) then 1 else 0
  {
    RunKeepsInv(START, es);
    assert Settles(Final(START, es), n);
  }

  /** The process exits, in every run, exactly at the first moment when stdin is closed and nothing is in flight. */
  lemma ExitsExactlyWhenDrained(es: seq<Event>)
    requires Run(START, es) && NoNull(es)
    ensures var s := Final(START, es);
            && (s.exit.Exited? <==> s.stdinClosed && s.inFlight == map[])
            && !s.exit.Crashed?
  {
    RunKeepsInv(START, es);
    var s := Final(START, es);
    assert |s.inFlight| == 0 <==> s.inFlight == map[];
  }

  /** So nothing asked for is left unanswered by an exit. */
  lemma ExitLeavesNothingUnanswered(es: seq<Event>, n: nat)
    requires Run(START, es) && NoNull(es) && Final(START, es).exit.Exited?
    requires n < |Final(START, es).seen|
    ensures Answers(Final(START, es).out, n) == if Owed(Final(START, es), n) then 1 else 0
  {
    EachRequestIsAnsweredOnce(es, n);
    ExitsExactlyWhenDrained(es);
  }

  /** The handlers that wait for the remote. */
  ghost function Awaited(m: map<nat, Stage>): set<nat> {
    set n | n in m && m[n].Awaiting?
  }

  /** The steps still to come: two for a handler that waits for the remote, one for any other. */
  ghost function Work(s: State): nat {
    |s.inFlight| + |Awaited(s.inFlight)|
  }

  lemma DrainStep(s: State, e: Event)
    requires FlightInv(s) && s.stdinClosed && Enabled(s, e)
    ensures Work(Apply(s, e)) + 1 == Work(s)
    ensures FlightInv(Apply(s, e)) && Apply(s, e).stdinClosed
  {
    var s', n := Apply(s, e), e.request;
    FlightIsKept(s, e);
    assert |s'.inFlight| == |s'.inFlight.Keys| && |s.inFlight| == |s.inFlight.Keys|;
    if e.OnRemote? {
      assert s'.inFlight.Keys == s.inFlight.Keys;
      assert Awaited(s'.inFlight) == Awaited(s.inFlight) - {n};
    } else {
      assert s'.inFlight.Keys == s.inFlight.Keys - {n};
      assert Awaited(s'.inFlight) == Awaited(s.inFlight);
    }
  }

  lemma NothingLeftToDo(s: State)
    requires FlightInv(s) && s.stdinClosed
    ensures s.exit.Exited? <==> Work(s) == 0
  {
    assert |s.inFlight| == 0 ==> s.inFlight == map[] && Awaited(s.inFlight) == {};
  }

  /**
   Main result: once stdin is closed every run, whatever order the remote answers
   or fails in, exits with exactly the step that is the last of a fixed number. What
   keeps the process alive is a remote call that never settles, and nothing else.
   */
  lemma {:induction false} DrainsInEveryRun(s: State, es: seq<Event>)
    requires FlightInv(s) && s.stdinClosed && Run(s, es)
    ensures |es| + Work(Final(s, es)) == Work(s)
    ensures Final(s, es).exit.Exited? <==> |es| == Work(s)
    ensures Final(s, es).exit.Running? <==> exists n :: n in Final(s, es).inFlight
    decreases |es|
  {
    NothingLeftToDo(s);
    if es == [] {
      assert s.inFlight == map[] <==> |s.inFlight| == 0;
    } else {
      DrainStep(s, es[0]);
      DrainsInEveryRun(Apply(s, es[0]), es[1..]);
    }
  }

  // ----- ids -----

  /** The remote echoes the id it was asked with. */
  predicate Echoes(s: State, es: seq<Event>)
    requires Run(s, es)
    decreases |es|
  {
    es == [] ||
    ((es[0].OnRemote? && es[0].remote.Answered? ==> es[0].remote.id == Some(s.inFlight[es[0].request].id))
     && Echoes(Apply(s, es[0]), es[1..]))
  }

  /** The response carries the id of the line it answers; a parse error carries null. */
  predicate IdMatches(seen: seq<Line>, r: Response) {
    r.request < |seen| && r.id == if seen[r.request].Message? then seen[r.request].id else None
  }

  predicate IdsMatch(s: State) {
    forall k :: 0 <= k < |s.out| ==> IdMatches(s.seen, s.out[k])
  }

  lemma StepKeepsIds(s: State, e: Event)
    requires FlightInv(s) && IdsMatch(s) && Run(s, [e]) && Echoes(s, [e])
    ensures IdsMatch(Apply(s, e))
  {
    var s' := Apply(s, e);
    StepWrites(s, e);
    forall k | 0 <= k < |s'.out|
      ensures IdMatches(s'.seen, s'.out[k])
    {
      if k < |s.out| {
        assert IdMatches(s.seen, s.out[k]);
      }
    }
  }

  /** Main result: behind a remote that echoes ids, so does the server. */
  lemma {:induction false} ResponsesCarryTheirIds(s: State, es: seq<Event>)
    requires Inv(s) && IdsMatch(s) && Run(s, es) && NoNull(es) && Echoes(s, es)
    ensures IdsMatch(Final(s, es))
    decreases |es|
  {
    if es == [] {
    } else {
      StepKeepsInv(s, es[0]);
      EchoesFirst(s, es);
      StepKeepsIds(s, es[0]);
      ResponsesCarryTheirIds(Apply(s, es[0]), es[1..]);
    }
  }

  lemma EchoesFirst(s: State, es: seq<Event>)
    requires es != [] && Run(s, es) && Echoes(s, es)
    ensures Run(s, [es[0]]) && Echoes(s, [es[0]])
  {
    assert [es[0]][1..] == [] && Run(Apply(s, es[0]), []) && Echoes(Apply(s, es[0]), []);
  }

  // ----- what the responses say -----

  /** What a line may be answered with. */
  predicate Fits(line: Line, content: Content) {
    match line
    case Blank => false
    case NotJson => content == ParseError
    case Null => false
    case Message(_, m) =>
      match m
      case Initialize => content == Result(Initialize)
      case Ping => content == Result(Ping)
      case ToolsList => content == Forwarded || content == RemoteError
      case ToolsCall => content == Forwarded || content == RemoteError
      case ResourcesList => content == Result(ResourcesList)
      case PromptsList => content == Result(PromptsList)
      case Other(_) => content == MethodNotFound
  }

  predicate Fitting(seen: seq<Line>, r: Response) {
    r.request < |seen| && Fits(seen[r.request], r.content)
  }

  predicate AllFit(s: State) {
    forall k :: 0 <= k < |s.out| ==> Fitting(s.seen, s.out[k])
  }

  lemma StepKeepsFit(s: State, e: Event)
    requires FlightInv(s) && AllFit(s) && Enabled(s, e)
    ensures AllFit(Apply(s, e))
  {
    var s' := Apply(s, e);
    StepWrites(s, e);
    if e.OnRemote? {
      assert Serves(s.seen, e.request, s.inFlight[e.request]);
    }
    forall k | 0 <= k < |s'.out|
      ensures Fitting(s'.seen, s'.out[k])
    {
      if k < |s.out| {
        assert Fitting(s.seen, s.out[k]);
      }
    }
  }

  /**
   Main result: every response fits its line: a local method is answered with its
   result, a tool method by the remote, an unknown one and a line that is no JSON with
   their errors, and nothing else is answered.
   */
  lemma {:induction false} ResponsesFitTheirLines(s: State, es: seq<Event>)
    requires FlightInv(s) && AllFit(s) && Run(s, es) && NoNull(es)
    ensures AllFit(Final(s, es))
    decreases |es|
  {
    if es == [] {
    } else {
      FlightIsKept(s, es[0]);
      StepKeepsFit(s, es[0]);
      ResponsesFitTheirLines(Apply(s, es[0]), es[1..]);
    }
  }

  lemma {:induction false} OutGrows(s: State, es: seq<Event>)
    requires Run(s, es)
    ensures s.out <= Final(s, es).out
    decreases |es|
  {
    if es == [] {
    } else {
      StepWrites(s, es[0]);
      OutGrows(Apply(s, es[0]), es[1..]);
    }
  }

  /** A forwarded answer is the remote's to that line, with its id; an error means that the remote failed it. */
  lemma {:induction false} ForwardsTheRemote(s: State, es: seq<Event>, k: nat)
    requires Run(s, es) && |s.out| <= k < |Final(s, es).out|
    ensures var r := Final(s, es).out[k];
            && (r.content == Forwarded ==> OnRemote(r.request, Answered(r.id)) in es)
            && (r.content == RemoteError ==> OnRemote(r.request, Failed) in es)
    decreases |es|
  {
    if es == [] {
    } else {
      var s1 := Apply(s, es[0]);
      StepWrites(s, es[0]);
      OutGrows(s1, es[1..]);
      if k < |s1.out| {
        assert Final(s, es).out[k] == s1.out[k] == Written(s, es[0])[0];
      } else {
        ForwardsTheRemote(s1, es[1..], k);
      }
    }
  }
}
