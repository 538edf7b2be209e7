/**
 The discovery cache of the MCP client (mcp_client.py). A discovery either answers
 from the cache or asks the gateway and, when the reply is in, replaces the cached
 definitions and the tool functions generated from them. Any number of
 discoveries may be waiting for their replies.
 */
module ToolCache {
  import opened Options

  /** The name in a definition is whatever JSON value the gateway sent. */
  datatype Name = Text(text: string) | NotText

  datatype Tool = Tool(name: Name, description: string)

  /** A generated function: its `__name__` and the definition attached to it. */
  datatype ToolFunction = ToolFunction(name: string, definition: Tool)

  /** One entry of the `tools` array; a malformed one is skipped, one that is no object raises. */
  datatype Entry = Definition(tool: Tool) | Malformed | NoObject

  datatype Reply =
    | RequestError
    | Status(code: int)              // not 200
    | NotJson
    | NoObjectDocument               // a document without a `tools` list to go through: raises
    | Tools(entries: seq<Entry>)

  datatype Outcome =
    | Cached(tools: seq<Tool>, discoveredAt: int)
    | Waiting
    | Discovered(tools: seq<Tool>)
    | Failure
    | Raised
    | Done

  /** The definitions that can be parsed, None when an entry raises. */
  function Parsed(entries: seq<Entry>): Option<seq<Tool>> {
    if entries == [] then Some([])
    else
      var before, e := Parsed(entries[..|entries| - 1]), entries[|entries| - 1];
      if before == None || e.NoObject? then None
      else Some(before.value + if e.Definition? then [e.tool] else [])
  }

  predicate AllNamed(tools: seq<Tool>) {
    forall i :: 0 <= i < |tools| ==> tools[i].name.Text?
  }

  /** The functions match the definitions one to one, by position and name. */
  predicate Matches(functions: seq<ToolFunction>, tools: seq<Tool>) {
    && |functions| == |tools|
    && forall i :: 0 <= i < |tools| ==> functions[i].definition == tools[i] && tools[i].name == Text(functions[i].name)
  }

  datatype Config = Config(ttl: int, caching: bool)

  datatype Cache = Cache(tools: seq<Tool>, at: int, functions: seq<ToolFunction>)

  const EMPTY := Cache([], 0, [])

  predicate Fresh(c: Config, cache: Cache, now: int) {
    c.caching && cache.tools != [] && now - cache.at < c.ttl
  }

  function Generated(tools: seq<Tool>): (r: seq<ToolFunction>)
    requires AllNamed(tools)
    ensures Matches(r, tools)
  {
    seq(|tools|, i requires 0 <= i < |tools| => ToolFunction(tools[i].name.text, tools[i]))
  }

  /** The definitions a reply puts in the cache, None when it leaves it alone. */
  function Accepted(reply: Reply): Option<seq<Tool>> {
    if reply.Tools? then Parsed(reply.entries) else None
  }

  /** Definitions and time are replaced first; a name that is no string then stops the functions from following. */
  function Replaced(cache: Cache, reply: Reply, now: int): Cache {
    var tools := Accepted(reply);
    if tools == None then cache
    else Cache(tools.value, now, if AllNamed(tools.value) then Generated(tools.value) else cache.functions)
  }

  function Reported(reply: Reply): Outcome {
    match reply
    case RequestError => Failure
    case Status(_) => Failure
    case NotJson => Failure
    case NoObjectDocument => Raised
    case Tools(entries) =>
      var tools := Parsed(entries);
      if tools == None || !AllNamed(tools.value) then Raised else Discovered(tools.value)
  }

  class McpClient {
    const config: Config
    var gatewayUrl: string
    var toolsCache: seq<Tool>
    var cacheTimestamp: int
    var strandsTools: seq<ToolFunction>

    ghost function Value(): Cache
      reads this
    {
      Cache(toolsCache, cacheTimestamp, strandsTools)
    }

    constructor (config: Config, gatewayUrl: string)
      ensures this.config == config && this.gatewayUrl == gatewayUrl && Value() == EMPTY
    {
      this.config, this.gatewayUrl := config, gatewayUrl;
      toolsCache, cacheTimestamp, strandsTools := [], 0, [];
    }

    method IsCacheValid(now: int) returns (valid: bool)
      ensures valid <==> Fresh(config, Value(), now)
    {
      if !config.caching {
        return false;
      }
      if |toolsCache| == 0 {
        return false;
      }
      var age := now - cacheTimestamp;
      valid := age < config.ttl;
    }

    /** `discover_tools` up to its await: an answer from the cache, or the gateway to ask. */
    method BeginDiscovery(force: bool, now: int) returns (answer: Outcome, url: string)
      ensures answer == if !force && Fresh(config, Value(), now) then Cached(toolsCache, cacheTimestamp) else Waiting
      ensures url == gatewayUrl
    {
      url := gatewayUrl;
      var valid := IsCacheValid(now);
      answer := if !force && valid then Cached(toolsCache, cacheTimestamp) else Waiting;
    }

    /** `discover_tools` from the reply on. */
    method FinishDiscovery(reply: Reply, now: int) returns (outcome: Outcome)
      modifies this`toolsCache, this`cacheTimestamp, this`strandsTools
      ensures Value() == Replaced(old(Value()), reply, now)
      ensures outcome == Reported(reply)
    {
      match reply {
        case RequestError => return Failure;
        case Status(_) => return Failure;
        case NotJson => return Failure;
        case NoObjectDocument => return Raised;
        case Tools(entries) =>
          var tools: seq<Tool> := [];
          for i := 0 to |entries|
            invariant Parsed(entries[..i]) == Some(tools)
          {
            assert entries[..i + 1][..i] == entries[..i];
            match entries[i] {
              case Definition(tool) => tools := tools + [tool];
              case Malformed => assert tools + [] == tools;
              case NoObject =>
                StaysNone(entries, i + 1);
                return Raised;
            }
          }
          assert entries[..|entries|] == entries;
          toolsCache := tools;
          cacheTimestamp := now;
          var functions := GenerateStrandsTools(tools);
          if functions == None {
            return Raised;
          }
          strandsTools := functions.value;
          return Discovered(tools);
      }
    }

    /** None is the TypeError of a `__name__` that is no string. */
    method GenerateStrandsTools(tools: seq<Tool>) returns (r: Option<seq<ToolFunction>>)
      ensures r == if AllNamed(tools) then Some(Generated(tools)) else None
    {
      var functions: seq<ToolFunction> := [];
      for i := 0 to |tools|
        invariant AllNamed(tools[..i]) && functions == Generated(tools[..i])
      {
        if tools[i].name.NotText? {
          return None;
        }
        functions := functions + [ToolFunction(tools[i].name.text, tools[i])];
      }
      assert tools[..|tools|] == tools;
      r := Some(functions);
    }

    method ClearCache()
      modifies this`toolsCache, this`cacheTimestamp, this`strandsTools
      ensures Value() == EMPTY
    {
      toolsCache := [];
      cacheTimestamp := 0;
      strandsTools := [];
    }

    /** The head of `discover_mcp_tools`; an empty URL leaves the gateway as it is. */
    method UseGateway(url: string)
      modifies this`gatewayUrl
      ensures gatewayUrl == if url == "" then old(gatewayUrl) else url
    {
      if url != "" {
        gatewayUrl := url;
      }
    }
  }

  lemma {:induction false} StaysNone(entries: seq<Entry>, n: nat)
    requires n <= |entries| && Parsed(entries[..n]) == None
    ensures Parsed(entries) == None
    decreases |entries| - n
  {
    if n == |entries| {
      assert entries[..n] == entries;
    } else {
      assert entries[..n + 1][..n] == entries[..n];
      StaysNone(entries, n + 1);
    }
  }

  // ----- whole runs -----

  /**
   `asking` maps a discovery that waits for its reply to the gateway it asked;
   `origin` is the gateway that what is cached came from.
   */
  datatype State = State(cache: Cache, gateway: string, asking: map<nat, string>, origin: Option<string>)

  datatype Event =
    | Begin(id: nat, force: bool, now: int)
    | Finish(id: nat, reply: Reply, now: int)
    | Clear
    | Switch(url: string)

  function Initial(gateway: string): State {
    State(EMPTY, gateway, map[], None)
  }

  predicate Enabled(s: State, e: Event) {
    && (e.Begin? ==> e.id !in s.asking)
    && (e.Finish? ==> e.id in s.asking)
  }

  function Answer(c: Config, s: State, e: Event): Outcome
    requires Enabled(s, e)
  {
    match e
    case Begin(_, force, now) =>
      if !force && Fresh(c, s.cache, now) then Cached(s.cache.tools, s.cache.at) else Waiting
    case Finish(_, reply, _) => Reported(reply)
    case Clear => Done
    case Switch(_) => Done
  }

  function Apply(c: Config, s: State, e: Event): State
    requires Enabled(s, e)
  {
    match e
    case Begin(id, _, _) => if Answer(c, s, e).Waiting? then s.(asking := s.asking[id := s.gateway]) else s
    case Finish(id, reply, now) =>
      s.(cache := Replaced(s.cache, reply, now), asking := s.asking - {id},
         origin := if Accepted(reply) == None then s.origin else Some(s.asking[id]))
    case Clear => s.(cache := EMPTY, origin := None)
    case Switch(url) => if url == "" then s else s.(gateway := url)
  }

  /** `es` can happen in this order from the start. */
  predicate Run(c: Config, gateway: string, es: seq<Event>)
    decreases |es|, 0
  {
    es == [] ||
    (Run(c, gateway, es[..|es| - 1]) && Enabled(Final(c, gateway, es[..|es| - 1]), es[|es| - 1]))
  }

  function Final(c: Config, gateway: string, es: seq<Event>): State
    requires Run(c, gateway, es)
    decreases |es|, 1
  {
    if es == [] then Initial(gateway) else Apply(c, Final(c, gateway, es[..|es| - 1]), es[|es| - 1])
  }

  // ----- what the events alone tell -----

  /** The URL last switched to, or the one before all. */
  function LastUrl(gateway: string, es: seq<Event>): string {
    if es == [] then gateway
    else
      var e := es[|es| - 1];
      if e.Switch? && e.url != "" then e.url else LastUrl(gateway, es[..|es| - 1])
  }

  /** How many events came before the discovery `id` was last begun. */
  function BegunAfter(es: seq<Event>, id: nat): (n: nat)
    ensures n <= |es|
  {
    if es == [] then 0
    else if es[|es| - 1].Begin? && es[|es| - 1].id == id then |es| - 1
    else BegunAfter(es[..|es| - 1], id)
  }

  /** The last discovery since a clear whose definitions were accepted, and how many events came before it was begun. */
  datatype Update = Update(tools: seq<Tool>, at: int, begun: nat)

  function LastUpdate(es: seq<Event>): (r: Option<Update>)
    ensures r.Some? ==> r.value.begun <= |es|
  {
    if es == [] then None
    else
      var e, before := es[|es| - 1], es[..|es| - 1];
      if e.Clear? then None
      else if e.Finish? && Accepted(e.reply).Some? then
        Some(Update(Accepted(e.reply).value, e.now, BegunAfter(before, e.id)))
      else LastUpdate(before)
  }

  // ----- the cache is that of the last update -----

  /** The cache is that of the last update, and its functions match exactly when all its names are strings. */
  ghost predicate Holds(cache: Cache, last: Option<Update>) {
    && cache.tools == (if last.Some? then last.value.tools else [])
    && (last.Some? ==> cache.at == last.value.at)
    && (Matches(cache.functions, cache.tools) <==> last == None || AllNamed(last.value.tools))
  }

  lemma ReplacedHolds(cache: Cache, last: Option<Update>, reply: Reply, now: int, begun: nat)
    requires Holds(cache, last)
    ensures Accepted(reply) == None ==> Holds(Replaced(cache, reply, now), last)
    ensures Accepted(reply).Some? ==>
              Holds(Replaced(cache, reply, now), Some(Update(Accepted(reply).value, now, begun)))
  {
    var tools := Accepted(reply);
    if tools.Some? && !AllNamed(tools.value) {
      var i :| 0 <= i < |tools.value| && tools.value[i].name.NotText?;
      assert !Matches(cache.functions, tools.value);
    }
  }

  lemma {:induction false} CacheIsLastUpdate(c: Config, gateway: string, es: seq<Event>)
    requires Run(c, gateway, es)
    ensures Holds(Final(c, gateway, es).cache, LastUpdate(es))
    decreases |es|
  {
    if es == [] {
    } else {
      var before, e := es[..|es| - 1], es[|es| - 1];
      CacheIsLastUpdate(c, gateway, before);
      if e.Finish? {
        ReplacedHolds(Final(c, gateway, before).cache, LastUpdate(before), e.reply, e.now, BegunAfter(before, e.id));
      }
    }
  }

  /**
   Main result: over every interleaving of discoveries, clears and switches a
   discovery is answered from the cache exactly when it is not forced and the last
   update found something less than the TTL ago, and the answer is that update.
   */
  lemma {:induction false} CachedAnswersAreTheLastUpdate(c: Config, gateway: string, es: seq<Event>, e: Event)
    requires Run(c, gateway, es) && e.Begin? && Enabled(Final(c, gateway, es), e)
    ensures var last := LastUpdate(es);
            var answer := Answer(c, Final(c, gateway, es), e);
            && (answer.Cached? <==>
                c.caching && !e.force && last.Some? && last.value.tools != [] && e.now - last.value.at < c.ttl)
            && (answer.Cached? ==> answer == Cached(last.value.tools, last.value.at))
  {
    CacheIsLastUpdate(c, gateway, es);
  }

  /**
   The functions are meant to match the cached definitions. They do exactly when
   nothing was cached since the last clear, or every name in the last update is a string.
   */
  lemma {:induction false} FunctionsMatchWhenNamesAreStrings(c: Config, gateway: string, es: seq<Event>)
    requires Run(c, gateway, es)
    ensures var cache, last := Final(c, gateway, es).cache, LastUpdate(es);
            Matches(cache.functions, cache.tools) <==> last == None || AllNamed(last.value.tools)
  {
    CacheIsLastUpdate(c, gateway, es);
  }

  lemma ParsedOne(tool: Tool)
    ensures Parsed([Definition(tool)]) == Some([tool])
  {
    assert [Definition(tool)][..0] == [];
    assert [] + [tool] == [tool];
  }

  /** A name that is no string: the discovery raises, yet the next one is answered from the cache it left. */
  lemma NumericNameLeavesStaleFunctions(s: State, id: nat, other: nat, now: int)
    requires Enabled(s, Finish(id, Tools([Definition(Tool(NotText, ""))]), now)) && other !in s.asking
    ensures var c := Config(300, true);
            var finish := Finish(id, Tools([Definition(Tool(NotText, ""))]), now);
            var s' := Apply(c, s, finish);
            && Answer(c, s, finish) == Raised
            && Answer(c, s', Begin(other, false, now)) == Cached([Tool(NotText, "")], now)
            && s'.cache.functions == s.cache.functions
            && !Matches(s'.cache.functions, s'.cache.tools)
  {
    var tool := Tool(NotText, "");
    ParsedOne(tool);
    assert [tool][0].name.NotText? && !AllNamed([tool]);
    assert Replaced(s.cache, Tools([Definition(tool)]), now) == Cache([tool], now, s.cache.functions);
  }

  lemma RunGoesOn(c: Config, gateway: string, es: seq<Event>, e: Event)
    requires Run(c, gateway, es) && Enabled(Final(c, gateway, es), e)
    ensures Run(c, gateway, es + [e]) && Final(c, gateway, es + [e]) == Apply(c, Final(c, gateway, es), e)
  {
    assert (es + [e])[..|es + [e]| - 1] == es;
  }

  // ----- what a reply comes to -----

  lemma {:induction false} ParsedSplits(a: seq<Entry>, b: seq<Entry>)
    ensures Parsed(a + b) == if Parsed(a) == None || Parsed(b) == None then None
                             else Some(Parsed(a).value + Parsed(b).value)
  {
    if b == [] {
      assert a + b == a;
      assert Parsed(a).Some? ==> Parsed(a).value + [] == Parsed(a).value;
    } else {
      var before, e := b[..|b| - 1], b[|b| - 1];
      assert (a + b)[..|a + b| - 1] == a + before && (a + b)[|a + b| - 1] == e;
      ParsedSplits(a, before);
      if Parsed(a).Some? && Parsed(before).Some? && !e.NoObject? {
        var more := if e.Definition? then [e.tool] else [];
        assert Parsed(a).value + Parsed(before).value + more == Parsed(a).value + (Parsed(before).value + more);
      }
    }
  }

  /** An entry yields its definition, nothing when it is malformed, and an exception when it is no object. */
  lemma ParsedSingle(tool: Tool)
    ensures Parsed([Definition(tool)]) == Some([tool]) && Parsed([Malformed]) == Some([]) && Parsed([NoObject]) == None
  {
    ParsedOne(tool);
    assert [Malformed][..0] == [] && [NoObject][..0] == [];
    var none: seq<Tool> := [];
    assert none + [] == none;
  }

  lemma {:induction false} ParsedUnlessNoObject(entries: seq<Entry>)
    ensures Parsed(entries) == None <==> NoObject in entries
  {
    if entries == [] {
    } else {
      var before, e := entries[..|entries| - 1], entries[|entries| - 1];
      assert entries == before + [e];
      ParsedUnlessNoObject(before);
    }
  }

  /** The entries of a document that lists just these definitions. */
  function Listing(tools: seq<Tool>): seq<Entry> {
    if tools == [] then [] else [Definition(tools[0])] + Listing(tools[1..])
  }

  lemma {:induction false} ListingParses(tools: seq<Tool>)
    ensures Parsed(Listing(tools)) == Some(tools)
  {
    if tools == [] {
    } else {
      ListingParses(tools[1..]);
      ParsedOne(tools[0]);
      ParsedSplits([Definition(tools[0])], Listing(tools[1..]));
      assert tools == [tools[0]] + tools[1..];
    }
  }

  /** Main result on the outcomes: which replies fail, which raise, and what all others discover. */
  lemma WhatADiscoveryComesTo(c: Config, s: State, id: nat, reply: Reply, now: int)
    requires id in s.asking
    ensures var o := Answer(c, s, Finish(id, reply, now));
            && (o == Failure <==> reply.RequestError? || reply.Status? || reply.NotJson?)
            && (o == Raised <==>
                || reply == NoObjectDocument
                || (reply.Tools? && NoObject in reply.entries)
                || (reply.Tools? && Parsed(reply.entries).Some? && !AllNamed(Parsed(reply.entries).value)))
            && (o.Discovered? ==> reply.Tools? && Parsed(reply.entries) == Some(o.tools))
            && (o == Failure || o == Raised || o.Discovered?)
  {
    if reply.Tools? {
      ParsedUnlessNoObject(reply.entries);
    }
  }

  /**
   Main result, the positive side of the cache: after any run, what a document lists is
   discovered, and answers every unforced discovery until the TTL is over.
   */
  lemma WhatIsListedIsCached(c: Config, gateway: string, es: seq<Event>, id: nat, tools: seq<Tool>, now: int,
                             other: nat, later: int)
    requires Run(c, gateway, es) && id in Final(c, gateway, es).asking
    requires AllNamed(tools) && other !in Final(c, gateway, es).asking
    ensures var s, finish := Final(c, gateway, es), Finish(id, Tools(Listing(tools)), now);
            && Answer(c, s, finish) == Discovered(tools)
            && Matches(Apply(c, s, finish).cache.functions, tools)
            && (Answer(c, Apply(c, s, finish), Begin(other, false, later)) == Cached(tools, now)
                <==> c.caching && tools != [] && later < now + c.ttl)
  {
    ListingParses(tools);
  }

  // ----- failed discoveries leave no trace -----

  /** The reply of a discovery that fails, or raises before it has parsed every entry. */
  predicate Fails(e: Event) {
    e.Finish? && Accepted(e.reply) == None
  }

  /** The run without such replies, as if those discoveries were still waiting. */
  function WithoutFailures(es: seq<Event>): seq<Event> {
    if es == [] then []
    else
      var e := es[|es| - 1];
      WithoutFailures(es[..|es| - 1]) + if Fails(e) then [] else [e]
  }

  /** The outcomes of all other events. */
  function Outcomes(c: Config, gateway: string, es: seq<Event>): seq<Outcome>
    requires Run(c, gateway, es)
  {
    if es == [] then []
    else
      var before, e := es[..|es| - 1], es[|es| - 1];
      Outcomes(c, gateway, before) + if Fails(e) then [] else [Answer(c, Final(c, gateway, before), e)]
  }

  /** No two discoveries go by one number. */
  predicate BegunOnce(es: seq<Event>) {
    forall i, j :: 0 <= i < j < |es| && es[i].Begin? && es[j].Begin? ==> es[i].id != es[j].id
  }

  predicate Begun(es: seq<Event>, id: nat) {
    exists i :: 0 <= i < |es| && es[i].Begin? && es[i].id == id
  }

  /** Two states that differ at most in discoveries that wait in the second one only. */
  ghost predicate Alike(s: State, s': State, es: seq<Event>) {
    && s' == s.(asking := s'.asking)
    && (forall id :: id in s.asking ==> id in s'.asking && s'.asking[id] == s.asking[id])
    && (forall id :: id in s'.asking ==> Begun(es, id))
  }

  lemma BegunBefore(before: seq<Event>, e: Event, id: nat)
    ensures Begun(before + [e], id) <==> Begun(before, id) || (e.Begin? && e.id == id)
  {
    if Begun(before, id) {
      var i :| 0 <= i < |before| && before[i].Begin? && before[i].id == id;
      assert (before + [e])[i] == before[i];
    }
    if e.Begin? && e.id == id {
      assert (before + [e])[|before|] == e;
    }
  }

  lemma FirstBegun(before: seq<Event>, e: Event)
    requires BegunOnce(before + [e]) && e.Begin?
    ensures !Begun(before, e.id)
  {
    forall i | 0 <= i < |before| && before[i].Begin?
      ensures before[i].id != e.id
    {
      assert (before + [e])[i] == before[i] && (before + [e])[|before|] == e;
    }
  }

  lemma AlikeStep(c: Config, s: State, s': State, before: seq<Event>, e: Event)
    requires Alike(s, s', before) && Enabled(s, e) && BegunOnce(before + [e])
    ensures Fails(e) ==> Alike(Apply(c, s, e), s', before + [e])
    ensures !Fails(e) ==> Enabled(s', e) && Answer(c, s', e) == Answer(c, s, e)
                          && Alike(Apply(c, s, e), Apply(c, s', e), before + [e])
  {
    if e.Begin? {
      FirstBegun(before, e);
    }
    forall id
      ensures Begun(before + [e], id) <==> Begun(before, id) || (e.Begin? && e.id == id)
    {
      BegunBefore(before, e, id);
    }
  }

  lemma KeptOneMore(before: seq<Event>, e: Event)
    ensures WithoutFailures(before + [e]) == WithoutFailures(before) + if Fails(e) then [] else [e]
  {
    assert (before + [e])[..|before + [e]| - 1] == before;
  }

  lemma OutcomesOneMore(c: Config, gateway: string, before: seq<Event>, e: Event)
    requires Run(c, gateway, before) && Enabled(Final(c, gateway, before), e) && !Fails(e)
    ensures Run(c, gateway, before + [e])
    ensures Outcomes(c, gateway, before + [e])
            == Outcomes(c, gateway, before) + [Answer(c, Final(c, gateway, before), e)]
  {
    RunGoesOn(c, gateway, before, e);
    assert (before + [e])[..|before + [e]| - 1] == before;
  }

  lemma FailureOutcomes(c: Config, gateway: string, before: seq<Event>, e: Event)
    requires Run(c, gateway, before) && Enabled(Final(c, gateway, before), e) && Fails(e)
    ensures Run(c, gateway, before + [e]) && Outcomes(c, gateway, before + [e]) == Outcomes(c, gateway, before)
  {
    RunGoesOn(c, gateway, before, e);
    assert (before + [e])[..|before + [e]| - 1] == before;
  }

  lemma OnceBefore(before: seq<Event>, e: Event)
    requires BegunOnce(before + [e])
    ensures BegunOnce(before)
  {
    assert forall i :: 0 <= i < |before| ==> before[i] == (before + [e])[i];
  }

  /**
   Main result: failed discoveries leave no trace. Without their replies the run ends
   with the same cache, from the same gateway, and every other event comes out the same.
   */
  lemma {:induction false} FailuresLeaveNoTrace(c: Config, gateway: string, es: seq<Event>)
    requires Run(c, gateway, es) && BegunOnce(es)
    ensures Run(c, gateway, WithoutFailures(es))
    ensures Alike(Final(c, gateway, es), Final(c, gateway, WithoutFailures(es)), es)
    ensures Outcomes(c, gateway, WithoutFailures(es)) == Outcomes(c, gateway, es)
    decreases |es|
  {
    if es == [] {
    } else {
      var before, e := es[..|es| - 1], es[|es| - 1];
      var kept := WithoutFailures(before);
      assert es == before + [e];
      OnceBefore(before, e);
      FailuresLeaveNoTrace(c, gateway, before);
      KeptOneMore(before, e);
      AlikeStep(c, Final(c, gateway, before), Final(c, gateway, kept), before, e);
      if Fails(e) {
        assert kept + [] == kept;
        FailureOutcomes(c, gateway, before, e);
      } else {
        RunGoesOn(c, gateway, kept, e);
        OutcomesOneMore(c, gateway, kept, e);
        OutcomesOneMore(c, gateway, before, e);
      }
    }
  }

  // ----- whose tools are cached -----

  /** The state agrees with what the events alone tell about gateways. */
  ghost predicate Traced(s: State, gateway: string, es: seq<Event>) {
    && s.gateway == LastUrl(gateway, es)
    && (forall id :: id in s.asking ==> s.asking[id] == LastUrl(gateway, es[..BegunAfter(es, id)]))
    && (s.origin == None <==> LastUpdate(es) == None)
    && (s.origin.Some? ==> s.origin.value == LastUrl(gateway, es[..LastUpdate(es).value.begun]))
  }

  lemma {:induction false} RunsAreTraced(c: Config, gateway: string, es: seq<Event>)
    requires Run(c, gateway, es)
    ensures Traced(Final(c, gateway, es), gateway, es)
    decreases |es|
  {
    if es == [] {
    } else {
      var before, e := es[..|es| - 1], es[|es| - 1];
      assert es == before + [e];
      RunsAreTraced(c, gateway, before);
      StepIsTraced(c, Final(c, gateway, before), gateway, before, e);
    }
  }

  lemma UrlBefore(gateway: string, before: seq<Event>, e: Event, n: nat)
    requires n <= |before|
    ensures LastUrl(gateway, (before + [e])[..n]) == LastUrl(gateway, before[..n])
  {
    assert (before + [e])[..n] == before[..n];
  }

  lemma EventsOneMore(gateway: string, before: seq<Event>, e: Event, id: nat)
    ensures LastUrl(gateway, before + [e]) == if e.Switch? && e.url != "" then e.url else LastUrl(gateway, before)
    ensures BegunAfter(before + [e], id) == if e.Begin? && e.id == id then |before| else BegunAfter(before, id)
    ensures LastUpdate(before + [e])
            == if e.Clear? then None
               else if e.Finish? && Accepted(e.reply).Some? then
                 Some(Update(Accepted(e.reply).value, e.now, BegunAfter(before, e.id)))
               else LastUpdate(before)
  {
    assert (before + [e])[..|before + [e]| - 1] == before;
  }

  lemma AskingIsTraced(c: Config, s: State, gateway: string, before: seq<Event>, e: Event, id: nat)
    requires Traced(s, gateway, before) && Enabled(s, e) && id in Apply(c, s, e).asking
    ensures Apply(c, s, e).asking[id] == LastUrl(gateway, (before + [e])[..BegunAfter(before + [e], id)])
  {
    EventsOneMore(gateway, before, e, id);
    UrlBefore(gateway, before, e, BegunAfter(before + [e], id));
    assert before[..|before|] == before;
  }

  lemma OriginIsTraced(c: Config, s: State, gateway: string, before: seq<Event>, e: Event)
    requires Traced(s, gateway, before) && Enabled(s, e)
    ensures var origin, last := Apply(c, s, e).origin, LastUpdate(before + [e]);
            && (origin == None <==> last == None)
            && (origin.Some? ==> origin.value == LastUrl(gateway, (before + [e])[..last.value.begun]))
  {
    EventsOneMore(gateway, before, e, 0);
    if e.Finish? && Accepted(e.reply).Some? {
      UrlBefore(gateway, before, e, BegunAfter(before, e.id));
    } else if LastUpdate(before).Some? {
      UrlBefore(gateway, before, e, LastUpdate(before).value.begun);
    }
  }

  lemma StepIsTraced(c: Config, s: State, gateway: string, before: seq<Event>, e: Event)
    requires Traced(s, gateway, before) && Enabled(s, e)
    ensures Traced(Apply(c, s, e), gateway, before + [e])
  {
    EventsOneMore(gateway, before, e, 0);
    forall id | id in Apply(c, s, e).asking
      ensures Apply(c, s, e).asking[id] == LastUrl(gateway, (before + [e])[..BegunAfter(before + [e], id)])
    {
      AskingIsTraced(c, s, gateway, before, e, id);
    }
    OriginIsTraced(c, s, gateway, before, e);
  }

  lemma {:induction false} LastUrlSplits(gateway: string, es: seq<Event>, n: nat)
    requires n <= |es|
    ensures LastUrl(gateway, es) == LastUrl(LastUrl(gateway, es[..n]), es[n..])
    decreases |es|
  {
    if n == |es| {
      assert es[..n] == es;
    } else {
      var before := es[..|es| - 1];
      LastUrlSplits(gateway, before, n);
      assert before[..n] == es[..n] && es[n..][..|es[n..]| - 1] == before[n..];
    }
  }

  /**
   Main result: what is cached came from the gateway that was current when the
   discovery of the last update was begun. It is of the present gateway exactly
   when the switches since then, if any, ended where they started.
   */
  lemma CachedToolsAreOfTheGatewayAsked(c: Config, gateway: string, es: seq<Event>, u: Update)
    requires Run(c, gateway, es) && LastUpdate(es) == Some(u)
    ensures var s, asked := Final(c, gateway, es), LastUrl(gateway, es[..u.begun]);
            && s.origin == Some(asked)
            && (s.origin == Some(s.gateway) <==> LastUrl(asked, es[u.begun..]) == asked)
  {
    RunsAreTraced(c, gateway, es);
    LastUrlSplits(gateway, es, u.begun);
  }

  predicate NoSwitch(es: seq<Event>) {
    forall i :: 0 <= i < |es| ==> !es[i].Switch?
  }

  lemma {:induction false} NoSwitchKeepsUrl(gateway: string, es: seq<Event>)
    requires NoSwitch(es)
    ensures LastUrl(gateway, es) == gateway
  {
    if es == [] {
    } else {
      NoSwitchKeepsUrl(gateway, es[..|es| - 1]);
    }
  }

  /** Without a switch since that discovery was begun the cached tools are of the present gateway. */
  lemma CacheIsOfTheGatewayUntilSwitched(c: Config, gateway: string, es: seq<Event>, u: Update)
    requires Run(c, gateway, es) && LastUpdate(es) == Some(u) && NoSwitch(es[u.begun..])
    ensures Final(c, gateway, es).origin == Some(Final(c, gateway, es).gateway)
  {
    CachedToolsAreOfTheGatewayAsked(c, gateway, es, u);
    NoSwitchKeepsUrl(LastUrl(gateway, es[..u.begun]), es[u.begun..]);
  }

  /** A switch does not touch the cache: until the TTL is over the tools it came with are still the answer. */
  lemma SwitchedGatewayAnswersFromOldCache(c: Config, gateway: string, es: seq<Event>, url: string, id: nat, now: int)
    requires Run(c, gateway, es) && url != ""
    requires id !in Final(c, gateway, es).asking && Fresh(c, Final(c, gateway, es).cache, now)
    ensures var s, s' := Final(c, gateway, es), Apply(c, Final(c, gateway, es), Switch(url));
            && Answer(c, s', Begin(id, false, now)) == Cached(s.cache.tools, s.cache.at)
            && s'.gateway == url && s'.origin == s.origin != None
  {
    CacheIsLastUpdate(c, gateway, es);
    RunsAreTraced(c, gateway, es);
  }

  /** And a reply that comes in after the switch caches the old gateway's tools under the new one. */
  lemma LateReplyIsOfTheOldGateway(c: Config, gateway: string, url: string, entries: seq<Entry>, now: int)
    requires url != "" && url != gateway && Parsed(entries).Some?
    ensures var es := [Begin(0, false, now)] + [Switch(url)] + [Finish(0, Tools(entries), now)];
            && Run(c, gateway, es)
            && Final(c, gateway, es).cache.tools == Parsed(entries).value
            && Final(c, gateway, es).gateway == url && Final(c, gateway, es).origin == Some(gateway)
  {
    var begin, switch, finish := Begin(0, false, now), Switch(url), Finish(0, Tools(entries), now);
    assert [] + [begin] == [begin];
    RunGoesOn(c, gateway, [], begin);
    assert Final(c, gateway, [begin]) == Initial(gateway).(asking := map[0 := gateway]);
    RunGoesOn(c, gateway, [begin], switch);
    assert Final(c, gateway, [begin] + [switch]) == State(EMPTY, url, map[0 := gateway], None);
    RunGoesOn(c, gateway, [begin] + [switch], finish);
  }
}
