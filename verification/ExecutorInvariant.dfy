/**
  What every evaluation keeps, for every graph and every behaviour of the outside world: the cache is closed and
  well founded, cached values and calls are exactly those the node rules prescribe, and each delivery happens once.
  */
module ExecutorInvariant {
  import opened Outcomes
  import opened Graphs
  import opened WorkflowModel
  import opened NodeRules
  import opened ExecutorSpec

  // ----- Dependencies -----

  /** The sources a node evaluates for one handle. */
  function CollectedSources(env: Env, edges: seq<Edge>): set<string> {
    set e | e in edges && ShouldCollect(env, e.source) :: e.source
  }

  function HandleSources(env: Env, id: string, handles: seq<string>): set<string> {
    if handles == [] then {}
    else CollectedSources(env, Incoming(env, id, handles[0])) + HandleSources(env, id, handles[1..])
  }

  function DependencyGraph(env: Env): Graph {
    map id | id in env.Nodes() :: HandleSources(env, id, Handles(env.Nodes()[id].kind))
  }

  function Deps(env: Env, id: string): set<string> {
    Succ(DependencyGraph(env), id)
  }

  /** x is in the dependency cone of id (id included). */
  ghost predicate InCone(env: Env, id: string, x: string) {
    Reach(DependencyGraph(env), id, x)
  }

  // ----- Inputs as a function of the cache -----

  function FoldInputs(env: Env, values: map<string, Value>, edges: seq<Edge>, inputs: Inputs): Inputs
    requires CollectedSources(env, edges) <= values.Keys
  {
    if edges == [] then inputs
    else if !ShouldCollect(env, edges[0].source) then FoldInputs(env, values, edges[1..], inputs)
    else FoldInputs(env, values, edges[1..], Accumulate(inputs, values[edges[0].source]))
  }

  function HandleInputs(env: Env, values: map<string, Value>, id: string, handles: seq<string>): (r: seq<Inputs>)
    requires HandleSources(env, id, handles) <= values.Keys
    ensures |r| == |handles|
  {
    if handles == [] then []
    else [FoldInputs(env, values, Incoming(env, id, handles[0]), NO_INPUTS)]
         + HandleInputs(env, values, id, handles[1..])
  }

  /** The inputs of a node whose dependencies all have values. */
  function InputsOf(env: Env, values: map<string, Value>, id: string): (r: seq<Inputs>)
    requires id in env.Nodes() && Deps(env, id) <= values.Keys
    ensures |r| == |Handles(env.Nodes()[id].kind)|
  {
    HandleInputs(env, values, id, Handles(env.Nodes()[id].kind))
  }

  ghost predicate Extends<T>(small: map<string, T>, big: map<string, T>) {
    forall x :: x in small ==> x in big && big[x] == small[x]
  }

  lemma {:induction false} FoldIsStable(env: Env, small: map<string, Value>, big: map<string, Value>,
                                        edges: seq<Edge>, inputs: Inputs)
    requires Extends(small, big) && CollectedSources(env, edges) <= small.Keys
    ensures FoldInputs(env, big, edges, inputs) == FoldInputs(env, small, edges, inputs)
  {
    if edges != [] {
      assert CollectedSources(env, edges[1..]) <= CollectedSources(env, edges);
      var source := edges[0].source;
      if ShouldCollect(env, source) {
        assert edges[0] in edges;
        FoldIsStable(env, small, big, edges[1..], Accumulate(inputs, small[source]));
      } else {
        FoldIsStable(env, small, big, edges[1..], inputs);
      }
    }
  }

  lemma {:induction false} HandleInputsAreStable(env: Env, small: map<string, Value>, big: map<string, Value>,
                                                 id: string, handles: seq<string>)
    requires Extends(small, big) && HandleSources(env, id, handles) <= small.Keys
    ensures HandleInputs(env, big, id, handles) == HandleInputs(env, small, id, handles)
  {
    if handles != [] {
      FoldIsStable(env, small, big, Incoming(env, id, handles[0]), NO_INPUTS);
      HandleInputsAreStable(env, small, big, id, handles[1..]);
    }
  }

  // ----- The invariant -----

  ghost predicate ActiveFresh(env: Env, s: State) {
    s.active !! s.cache.Keys && s.active <= env.Nodes().Keys
  }

  /** The node passes its checks, its dependencies have values, and these are the inputs they give. */
  ghost predicate Ready(env: Env, values: map<string, Value>, id: string) {
    id in env.Nodes() && PreCheck(env, env.Nodes()[id].kind).None? && Deps(env, id) <= values.Keys
  }

  function DecisionOf(env: Env, values: map<string, Value>, id: string): Decision
    requires Ready(env, values, id)
  {
    Decide(env, env.Nodes()[id], InputsOf(env, values, id))
  }

  /** The call of this log entry is the one the rule of its node asks for on the cached inputs. */
  ghost predicate CallJustified(env: Env, values: map<string, Value>, e: Entry) {
    Ready(env, values, e.node) && DecisionOf(env, values, e.node) == Ask(e.call)
  }

  function FinishOf(env: Env, values: map<string, Value>, e: Entry): Outcome
    requires CallJustified(env, values, e)
  {
    Finish(env, env.Nodes()[e.node], InputsOf(env, values, e.node), e.reply)
  }

  /** The cached value is the one the rule of the node gives on the cached inputs and a logged reply. */
  ghost predicate ValueJustified(env: Env, cache: map<string, Value>, log: seq<Entry>, id: string)
    requires id in cache
  {
    Ready(env, cache, id) &&
    match DecisionOf(env, cache, id)
    case Fail(_) => false
    case Done(value) => value == cache[id]
    case Ask(_) =>
      exists i :: 0 <= i < |log| && log[i].node == id && CallJustified(env, cache, log[i])
                  && FinishOf(env, cache, log[i]) == Ok(cache[id])
  }

  ghost predicate CacheJustified(env: Env, cache: map<string, Value>, log: seq<Entry>) {
    forall id :: id in cache ==> ValueJustified(env, cache, log, id)
  }

  ghost predicate LogJustified(env: Env, cache: map<string, Value>, log: seq<Entry>) {
    forall i :: 0 <= i < |log| ==> CallJustified(env, cache, log[i])
  }

  /** The logged replies are those the world gives to these calls in this order. */
  ghost predicate LogTruthful(env: Env, log: seq<Entry>) {
    forall i :: 0 <= i < |log| ==> log[i].reply == env.world(i, log[i].node, log[i].call)
  }

  /** A node is reported succeeded exactly when it is cached. */
  ghost predicate ResultsFaithful(cache: map<string, Value>, results: map<string, NodeResult>) {
    forall id :: id in cache <==> id in results && results[id].Succeeded?
  }

  /** The node and everything it depends on exist, and dependency chains from it are shorter than k. */
  ghost predicate Grounded(env: Env, id: string, k: nat)
    decreases k
  {
    k > 0 && id in env.Nodes() && forall d :: d in Deps(env, id) ==> Grounded(env, d, k - 1)
  }

  ghost predicate AllGrounded(env: Env, ids: set<string>, k: nat) {
    forall id :: id in ids ==> Grounded(env, id, k)
  }

  ghost predicate WellFounded(env: Env, ids: set<string>) {
    exists k: nat :: AllGrounded(env, ids, k)
  }

  ghost predicate FromRoots(env: Env, roots: set<string>, id: string) {
    exists r :: r in roots && InCone(env, r, id)
  }

  /** Every reported node and every caller is in the dependency cone of a root. */
  ghost predicate Rooted(env: Env, reported: set<string>, log: seq<Entry>, roots: set<string>) {
    && (forall id :: id in reported ==> FromRoots(env, roots, id))
    && (forall i :: 0 <= i < |log| ==> FromRoots(env, roots, log[i].node))
  }

  /** The node types whose call delivers something that must not happen twice. */
  predicate Delivers(kind: Kind) {
    kind.WeCom? || kind.Command?
  }

  /** The number of calls of a node that the world accepted. */
  function Accepted(log: seq<Entry>, id: string): nat {
    if log == [] then 0
    else
      var last := log[|log| - 1];
      Accepted(log[..|log| - 1], id) + (if last.node == id && last.reply.ok then 1 else 0)
  }

  /** The number of accepted deliveries of a node: one if it is cached with an unblocked value, else none. */
  ghost predicate DeliveredOnce(env: Env, cache: map<string, Value>, log: seq<Entry>) {
    forall id :: id in env.Nodes() && Delivers(env.Nodes()[id].kind) ==>
      Accepted(log, id) == if id in cache && !cache[id].blocked then 1 else 0
  }

  /** The errors that the logged replies report, in the order of the calls. */
  function FetchErrorsOf(log: seq<Entry>): seq<string> {
    if log == [] then []
    else
      var last := log[|log| - 1];
      FetchErrorsOf(log[..|log| - 1])
      + (if last.call.PollFeeds? || last.call.FetchWeather? then last.reply.fetchErrors else [])
  }

  /** The receivers of the deliveries that failed, in the order of the calls. */
  function DeliveryErrorsOf(log: seq<Entry>): seq<string> {
    if log == [] then []
    else
      var last := log[|log| - 1];
      DeliveryErrorsOf(log[..|log| - 1]) + (if last.call.SendWeCom? && !last.reply.ok then [last.call.toUser] else [])
  }

  /** Exactly the errors of the logged replies are noted. */
  ghost predicate ErrorsNoted(s: State) {
    s.fetchErrors == FetchErrorsOf(s.log) && s.deliveryErrors == DeliveryErrorsOf(s.log)
  }

  lemma AnswerNotesErrors(env: Env, s: State, id: string, call: Call)
    requires ErrorsNoted(s)
    ensures ErrorsNoted(Answer(env, s, id, call).0)
  {
    var log := s.log + [Entry(id, call, env.world(|s.log|, id, call))];
    assert log[..|log| - 1] == s.log;
  }

  ghost predicate Invariant(env: Env, s: State, roots: set<string>) {
    && ActiveFresh(env, s)
    && CacheJustified(env, s.cache, s.log)
    && LogJustified(env, s.cache, s.log)
    && LogTruthful(env, s.log)
    && ResultsFaithful(s.cache, s.results)
    && WellFounded(env, s.cache.Keys)
    && Rooted(env, s.results.Keys, s.log, roots)
    && DeliveredOnce(env, s.cache, s.log)
    && ErrorsNoted(s)
  }

  /** Nothing cached, reported or logged is ever withdrawn. */
  ghost predicate Grows(s: State, t: State) {
    && Extends(s.cache, t.cache)
    && s.results.Keys <= t.results.Keys
    && s.log <= t.log
    && s.fetchErrors <= t.fetchErrors
    && s.deliveryErrors <= t.deliveryErrors
  }

  ghost predicate OutcomeFaithful(s: State, id: string, outcome: Outcome) {
    match outcome
    case Ok(value) => id in s.cache && s.cache[id] == value && id in s.results
    case Err(_) => id !in s.cache && id in s.results
  }

  // ----- Keeping it: the steps that do not recurse -----

  lemma GroundedMonotone(env: Env, id: string, k: nat, l: nat)
    requires Grounded(env, id, k) && k <= l
    ensures Grounded(env, id, l)
    decreases k
  {
    forall d | d in Deps(env, id)
      ensures Grounded(env, d, l - 1)
    {
      GroundedMonotone(env, d, k - 1, l - 1);
    }
  }

  lemma InputsAreStable(env: Env, small: map<string, Value>, big: map<string, Value>, id: string)
    requires Extends(small, big) && Ready(env, small, id)
    ensures Ready(env, big, id) && InputsOf(env, big, id) == InputsOf(env, small, id)
  {
    HandleInputsAreStable(env, small, big, id, Handles(env.Nodes()[id].kind));
  }

  lemma InitialInvariant(env: Env, roots: set<string>)
    ensures Invariant(env, INITIAL, roots)
  {
    assert AllGrounded(env, INITIAL.cache.Keys, 0);
  }

  lemma FailureKeeps(env: Env, s: State, id: string, e: Error, roots: set<string>)
    requires Invariant(env, s, roots) && id !in s.cache && FromRoots(env, roots, id)
    ensures Invariant(env, RecordFailure(s, id, e), roots) && Grows(s, RecordFailure(s, id, e))
  {
    hide FromRoots, LogJustified, CacheJustified, DeliveredOnce, WellFounded, LogTruthful;
    var t := RecordFailure(s, id, e);
    assert ResultsFaithful(t.cache, t.results);
    assert t.results.Keys == s.results.Keys + {id};
    assert Rooted(env, t.results.Keys, t.log, roots);
  }

  /** The state after the call of Perform, before the node is settled. */
  ghost predicate Performed(env: Env, s: State, t: State, id: string, outcome: Outcome)
    requires Ready(env, s.cache, id)
  {
    && t.cache == s.cache && t.active == s.active && t.results == s.results
    && NotesErrors(s, t)
    && match DecisionOf(env, s.cache, id)
       case Fail(e) => t.log == s.log && outcome == Err(e)
       case Done(value) => t.log == s.log && outcome == Ok(value)
       case Ask(call) =>
         && |t.log| == |s.log| + 1 && t.log[..|s.log|] == s.log
         && t.log[|s.log|].node == id && t.log[|s.log|].call == call
         && t.log[|s.log|].reply == env.world(|s.log|, id, call)
         && outcome == FinishOf(env, s.cache, t.log[|s.log|])
  }

  /** Errors are only added, and those of the replies. */
  ghost predicate NotesErrors(s: State, t: State) {
    && s.fetchErrors <= t.fetchErrors && s.deliveryErrors <= t.deliveryErrors
    && (ErrorsNoted(s) ==> ErrorsNoted(t))
  }

  lemma PerformNotesErrors(env: Env, s: State, node: Node, inputs: seq<Inputs>)
    requires |inputs| == |Handles(node.kind)| && PreCheck(env, node.kind).None?
    ensures NotesErrors(s, Perform(env, s, node, inputs).0)
  {
    hide Decide, Finish, PreCheck, Handles, ErrorsNoted;
    match Decide(env, node, inputs)
    case Fail(_) =>
    case Done(_) =>
    case Ask(call) =>
      if ErrorsNoted(s) {
        AnswerNotesErrors(env, s, node.id, call);
      }
  }

  lemma PerformDoes(env: Env, s: State, id: string)
    requires Ready(env, s.cache, id)
    ensures var (t, outcome) := Perform(env, s, env.Nodes()[id], InputsOf(env, s.cache, id));
            Performed(env, s, t, id, outcome)
  {
    hide Decide, Finish, InputsOf, IncomingByHandle, PreCheck, Deps, NotesErrors;
    PerformNotesErrors(env, s, env.Nodes()[id], InputsOf(env, s.cache, id));
  }

  lemma LongerLogKeepsValue(env: Env, cache: map<string, Value>, log: seq<Entry>, log': seq<Entry>, id: string)
    requires id in cache && ValueJustified(env, cache, log, id) && log <= log'
    ensures ValueJustified(env, cache, log', id)
  {
    hide DecisionOf, FinishOf, Ready;
    if DecisionOf(env, cache, id).Ask? {
      var i :| 0 <= i < |log| && log[i].node == id && CallJustified(env, cache, log[i])
               && FinishOf(env, cache, log[i]) == Ok(cache[id]);
      assert log'[i] == log[i];
    }
  }

  lemma PerformedKeepsJustification(env: Env, s: State, t: State, id: string, outcome: Outcome)
    requires CacheJustified(env, s.cache, s.log) && LogJustified(env, s.cache, s.log) && Ready(env, s.cache, id)
    requires Performed(env, s, t, id, outcome)
    ensures CacheJustified(env, t.cache, t.log) && LogJustified(env, t.cache, t.log)
  {
    hide DecisionOf, FinishOf, Ready, ValueJustified;
    forall x | x in t.cache
      ensures ValueJustified(env, t.cache, t.log, x)
    {
      assert s.log <= t.log;
      LongerLogKeepsValue(env, s.cache, s.log, t.log, x);
    }
    forall i | 0 <= i < |t.log|
      ensures CallJustified(env, t.cache, t.log[i])
    {
      if i < |s.log| {
        assert t.log[i] == s.log[i];
      }
    }
  }

  /** Justification only looks at cached dependencies, so caching more keeps it. */
  lemma CachingKeepsCalls(env: Env, small: map<string, Value>, big: map<string, Value>, log: seq<Entry>)
    requires LogJustified(env, small, log) && Extends(small, big)
    ensures LogJustified(env, big, log)
  {
    forall i | 0 <= i < |log|
      ensures CallJustified(env, big, log[i])
    {
      InputsAreStable(env, small, big, log[i].node);
    }
  }

  lemma CachingKeepsValue(env: Env, small: map<string, Value>, big: map<string, Value>, log: seq<Entry>, id: string)
    requires id in big && Extends(small, big) && Ready(env, small, id)
    requires match DecisionOf(env, small, id)
             case Fail(_) => false
             case Done(value) => value == big[id]
             case Ask(_) =>
               exists i :: 0 <= i < |log| && log[i].node == id && CallJustified(env, small, log[i])
                           && FinishOf(env, small, log[i]) == Ok(big[id])
    ensures ValueJustified(env, big, log, id)
  {
    InputsAreStable(env, small, big, id);
    if DecisionOf(env, small, id).Ask? {
      var i :| 0 <= i < |log| && log[i].node == id && CallJustified(env, small, log[i])
               && FinishOf(env, small, log[i]) == Ok(big[id]);
      assert CallJustified(env, big, log[i]);
    }
  }

  lemma CachingKeepsGrounding(env: Env, ids: set<string>, id: string)
    requires WellFounded(env, ids) && id in env.Nodes() && Deps(env, id) <= ids
    ensures WellFounded(env, ids + {id})
  {
    var k: nat :| AllGrounded(env, ids, k);
    forall x | x in ids + {id}
      ensures Grounded(env, x, k + 1)
    {
      if x in ids {
        GroundedMonotone(env, x, k, k + 1);
      }
    }
    assert AllGrounded(env, ids + {id}, k + 1);
  }

  lemma AcceptedAppend(log: seq<Entry>, e: Entry, id: string)
    ensures Accepted(log + [e], id) == Accepted(log, id) + (if e.node == id && e.reply.ok then 1 else 0)
  {
    assert (log + [e])[..|log|] == log;
  }

  /** A delivering node finishes without a call only when blocked, and with a call exactly when it is accepted. */
  lemma DeliveringRules(env: Env, node: Node, inputs: seq<Inputs>)
    requires Delivers(node.kind) && PreCheck(env, node.kind).None? && |inputs| == |Handles(node.kind)|
    ensures Decide(env, node, inputs).Done? ==> Decide(env, node, inputs).value.blocked
    ensures Decide(env, node, inputs).Ask? ==>
              forall reply :: var r := Finish(env, node, inputs, reply); r.Ok? <==> reply.ok
    ensures Decide(env, node, inputs).Ask? ==>
              forall reply :: var r := Finish(env, node, inputs, reply); r.Ok? ==> !r.value.blocked
  {
  }

  /** At most one log entry is added, and for a delivering node its reply decides the outcome. */
  ghost predicate CallOutcome(env: Env, log: seq<Entry>, log': seq<Entry>, id: string, outcome: Outcome)
    requires id in env.Nodes()
  {
    var delivers := Delivers(env.Nodes()[id].kind);
    if log' == log then delivers ==> outcome.Ok? ==> outcome.value.blocked
    else
      && |log'| == |log| + 1 && log' == log + [log'[|log|]] && log'[|log|].node == id
      && (delivers ==> (outcome.Ok? <==> log'[|log|].reply.ok) && (outcome.Ok? ==> !outcome.value.blocked))
  }

  lemma PerformedCallOutcome(env: Env, s: State, t: State, id: string, outcome: Outcome)
    requires Ready(env, s.cache, id) && Performed(env, s, t, id, outcome)
    ensures CallOutcome(env, s.log, t.log, id, outcome)
  {
    hide Decide, Finish, HandleInputs, PreCheck, NotesErrors;
    var node, inputs := env.Nodes()[id], InputsOf(env, s.cache, id);
    if Delivers(node.kind) {
      DeliveringRules(env, node, inputs);
    }
    if DecisionOf(env, s.cache, id).Ask? {
      assert t.log == s.log + [t.log[|s.log|]];
    }
  }

  /** Performing a node changes only its own count, and that exactly when its outcome is an unblocked value. */
  lemma DeliveryCounts(env: Env, cache: map<string, Value>, log: seq<Entry>, log': seq<Entry>, id: string,
                       outcome: Outcome)
    requires DeliveredOnce(env, cache, log) && id in env.Nodes() && id !in cache
    requires CallOutcome(env, log, log', id, outcome)
    ensures DeliveredOnce(env, if outcome.Ok? then cache[id := outcome.value] else cache, log')
  {
    if log' != log {
      CountsAfterCall(env, cache, log, id, outcome, log'[|log|]);
    }
  }

  lemma CountsAfterCall(env: Env, cache: map<string, Value>, log: seq<Entry>, id: string, outcome: Outcome, e: Entry)
    requires DeliveredOnce(env, cache, log) && id in env.Nodes() && id !in cache && e.node == id
    requires Delivers(env.Nodes()[id].kind) ==>
               (outcome.Ok? <==> e.reply.ok) && (outcome.Ok? ==> !outcome.value.blocked)
    ensures DeliveredOnce(env, if outcome.Ok? then cache[id := outcome.value] else cache, log + [e])
  {
    forall x | x in env.Nodes() && Delivers(env.Nodes()[x].kind)
      ensures Accepted(log + [e], x) == Accepted(log, x) + (if x == id && e.reply.ok then 1 else 0)
    {
      AcceptedAppend(log, e, x);
    }
  }

  /** What performing changes, whatever the rules say: at most one more log entry, by the node itself. */
  ghost predicate PerformedFrame(env: Env, s: State, t: State, id: string) {
    && t.cache == s.cache && t.active == s.active && t.results == s.results
    && s.fetchErrors <= t.fetchErrors && s.deliveryErrors <= t.deliveryErrors
    && s.log <= t.log && (forall i :: |s.log| <= i < |t.log| ==> t.log[i].node == id)
    && (LogTruthful(env, s.log) ==> LogTruthful(env, t.log)) && (ErrorsNoted(s) ==> ErrorsNoted(t))
  }

  lemma PerformHasFrame(env: Env, s: State, t: State, id: string, outcome: Outcome)
    requires Ready(env, s.cache, id) && Performed(env, s, t, id, outcome)
    ensures PerformedFrame(env, s, t, id)
  {
    hide DecisionOf, FinishOf, Ready;
    forall i | LogTruthful(env, s.log) && 0 <= i < |t.log|
      ensures t.log[i].reply == env.world(i, t.log[i].node, t.log[i].call)
    {
      if i < |s.log| {
        assert t.log[i] == s.log[i];
      }
    }
  }

  lemma SettleSuccessJustified(env: Env, s: State, t: State, id: string, value: Value)
    requires CacheJustified(env, s.cache, s.log) && LogJustified(env, s.cache, s.log) && id !in s.cache
    requires Ready(env, s.cache, id) && Performed(env, s, t, id, Ok(value))
    ensures CacheJustified(env, t.cache[id := value], t.log) && LogJustified(env, t.cache[id := value], t.log)
  {
    hide Decide, Finish;
    var cache := t.cache[id := value];
    PerformedKeepsJustification(env, s, t, id, Ok(value));
    CachingKeepsCalls(env, t.cache, cache, t.log);
    forall x | x in cache
      ensures ValueJustified(env, cache, t.log, x)
    {
      if x != id {
        assert ValueJustified(env, t.cache, t.log, x);
      } else if DecisionOf(env, t.cache, id).Ask? {
        assert CallJustified(env, t.cache, t.log[|s.log|]);
      }
      CachingKeepsValue(env, t.cache, cache, t.log, x);
    }
  }

  lemma SettleKeepsTables(env: Env, s: State, t: State, id: string, outcome: Outcome, roots: set<string>)
    requires ActiveFresh(env, s) && ResultsFaithful(s.cache, s.results) && Rooted(env, s.results.Keys, s.log, roots)
    requires ErrorsNoted(s)
    requires PerformedFrame(env, s, t, id) && id in s.active && FromRoots(env, roots, id)
    ensures var (u, outcome) := Settle(t, id, outcome);
            && ActiveFresh(env, u) && ResultsFaithful(u.cache, u.results)
            && Rooted(env, u.results.Keys, u.log, roots) && ErrorsNoted(u)
            && Grows(s, u) && OutcomeFaithful(u, id, outcome)
  {
    hide FromRoots, LogTruthful;
    var (u, _) := Settle(t, id, outcome);
    assert u.results.Keys == s.results.Keys + {id};
    forall i | 0 <= i < |t.log|
      ensures FromRoots(env, roots, t.log[i].node)
    {
      if i < |s.log| {
        assert t.log[i] == s.log[i];
      }
    }
  }

  lemma SettleKeeps(env: Env, s: State, t: State, id: string, outcome: Outcome, roots: set<string>)
    requires Invariant(env, s, roots) && id in s.active && FromRoots(env, roots, id)
    requires Ready(env, s.cache, id) && Performed(env, s, t, id, outcome)
    ensures var (u, outcome) := Settle(t, id, outcome);
            Invariant(env, u, roots) && Grows(s, u) && OutcomeFaithful(u, id, outcome)
  {
    assert id !in s.cache;
    hide Performed, Ready, LogJustified, CacheJustified, WellFounded, DeliveredOnce, Rooted, ResultsFaithful;
    hide ErrorsNoted, ActiveFresh, LogTruthful;
    PerformHasFrame(env, s, t, id, outcome);
    SettleKeepsTables(env, s, t, id, outcome, roots);
    SettleKeepsCache(env, s, t, id, outcome);
  }

  lemma SettleKeepsCache(env: Env, s: State, t: State, id: string, outcome: Outcome)
    requires CacheJustified(env, s.cache, s.log) && LogJustified(env, s.cache, s.log) && id !in s.cache
    requires WellFounded(env, s.cache.Keys) && DeliveredOnce(env, s.cache, s.log)
    requires Ready(env, s.cache, id) && Performed(env, s, t, id, outcome) && PerformedFrame(env, s, t, id)
    ensures var (u, outcome) := Settle(t, id, outcome);
            && CacheJustified(env, u.cache, u.log) && LogJustified(env, u.cache, u.log)
            && WellFounded(env, u.cache.Keys) && DeliveredOnce(env, u.cache, u.log)
  {
    assert id in env.Nodes() && Deps(env, id) <= s.cache.Keys;
    hide Performed, Ready, Deps, LogJustified, CacheJustified, WellFounded, DeliveredOnce, Rooted, ResultsFaithful;
    PerformedCallOutcome(env, s, t, id, outcome);
    DeliveryCounts(env, s.cache, s.log, t.log, id, outcome);
    if outcome.Ok? {
      SettleSuccessJustified(env, s, t, id, outcome.value);
      CachingKeepsGrounding(env, s.cache.Keys, id);
      assert t.cache[id := outcome.value].Keys == s.cache.Keys + {id};
    } else {
      PerformedKeepsJustification(env, s, t, id, outcome);
    }
  }

  lemma ConcludeKeeps(env: Env, s: State, id: string, inputs: Result<seq<Inputs>, Error>, roots: set<string>)
    requires Invariant(env, s, roots) && id in s.active && FromRoots(env, roots, id)
    requires inputs.Ok? ==> Ready(env, s.cache, id) && inputs.value == InputsOf(env, s.cache, id)
    ensures var (u, outcome) := Conclude(env, s, env.Nodes()[id], inputs);
            Invariant(env, u, roots) && Grows(s, u) && OutcomeFaithful(u, id, outcome)
  {
    match inputs
    case Err(e) => FailureKeeps(env, s, id, e, roots);
    case Ok(values) =>
      PerformDoes(env, s, id);
      var (t, outcome) := Perform(env, s, env.Nodes()[id], values);
      SettleKeeps(env, s, t, id, outcome, roots);
  }

  // ----- Keeping it: the recursion -----

  ghost predicate Kept(env: Env, s: State, t: State, roots: set<string>) {
    Invariant(env, t, roots) && Grows(s, t) && t.active == s.active
  }

  lemma EnterKeeps(env: Env, s: State, id: string, roots: set<string>)
    requires Invariant(env, s, roots) && id in env.Nodes() && id !in s.cache
    ensures Invariant(env, Enter(s, id), roots)
  {
  }

  lemma EvaluateUnfolds(env: Env, s: State, id: string)
    requires id in env.Nodes() && id !in s.cache && id !in s.active
    ensures var (gathered, inputs) := Gather(env, Enter(s, id), env.Nodes()[id]);
            Evaluate(env, s, id) == Conclude(env, gathered, env.Nodes()[id], inputs)
  {
  }

  /** A cached node, a node found on its own path and a missing node are not executed. */
  lemma EvaluateStops(env: Env, s: State, id: string, roots: set<string>)
    requires Invariant(env, s, roots) && FromRoots(env, roots, id)
    requires id in s.cache || id in s.active || id !in env.Nodes()
    ensures var (t, outcome) := Evaluate(env, s, id); Kept(env, s, t, roots) && OutcomeFaithful(t, id, outcome)
  {
    if id in s.cache {
    } else if id in s.active {
      FailureKeeps(env, s, id, CycleFound, roots);
    } else {
      FailureKeeps(env, s, id, NodeMissing, roots);
    }
  }

  ghost predicate GatheredWell(env: Env, s: State, id: string, roots: set<string>)
    requires id in env.Nodes()
  {
    var (t, inputs) := Gather(env, s, env.Nodes()[id]);
    && Kept(env, s, t, roots)
    && (inputs.Ok? ==> Ready(env, t.cache, id) && inputs.value == InputsOf(env, t.cache, id))
  }

  lemma EvaluateFinishes(env: Env, s: State, id: string, roots: set<string>)
    requires Invariant(env, s, roots) && FromRoots(env, roots, id)
    requires id in env.Nodes() && id !in s.cache && id !in s.active
    requires GatheredWell(env, Enter(s, id), id, roots)
    ensures var (t, outcome) := Evaluate(env, s, id); Kept(env, s, t, roots) && OutcomeFaithful(t, id, outcome)
  {
    hide Gather, Conclude, Evaluate, Invariant;
    EvaluateUnfolds(env, s, id);
    var (gathered, inputs) := Gather(env, Enter(s, id), env.Nodes()[id]);
    ConcludeKeeps(env, gathered, id, inputs, roots);
    var (t, _) := Conclude(env, gathered, env.Nodes()[id], inputs);
    assert Evaluate(env, s, id).0.active == s.active;
  }

  /** Evaluating any node from any state keeps the invariant, withdraws nothing, and its outcome is the cached
      value, or an error for a node that stays uncached. */
  lemma {:induction false} EvaluateKeeps(env: Env, s: State, id: string, roots: set<string>)
    requires Invariant(env, s, roots) && FromRoots(env, roots, id)
    ensures var (t, outcome) := Evaluate(env, s, id); Kept(env, s, t, roots) && OutcomeFaithful(t, id, outcome)
    decreases |Open(env, s.active)|, 0, 0
  {
    hide Evaluate, Gather, Conclude, Kept, Invariant, OutcomeFaithful, GatheredWell, FromRoots;
    if id in s.cache || id in s.active || id !in env.Nodes() {
      EvaluateStops(env, s, id, roots);
    } else {
      OpenShrinks(env, s.active, id);
      EnterKeeps(env, s, id, roots);
      GatherKeeps(env, Enter(s, id), id, roots);
      EvaluateFinishes(env, s, id, roots);
    }
  }

  lemma {:induction false} GatherKeeps(env: Env, s: State, id: string, roots: set<string>)
    requires Invariant(env, s, roots) && id in env.Nodes() && FromRoots(env, roots, id)
    ensures GatheredWell(env, s, id, roots)
    decreases |Open(env, s.active)|, 3, 0
  {
    var node := env.Nodes()[id];
    if PreCheck(env, node.kind).None? {
      DependenciesFromRoots(env, id, roots);
      CollectHandlesKeeps(env, s, id, Handles(node.kind), roots);
    }
  }

  lemma DependenciesFromRoots(env: Env, id: string, roots: set<string>)
    requires FromRoots(env, roots, id)
    ensures forall d :: d in Deps(env, id) ==> FromRoots(env, roots, d)
  {
    var r :| r in roots && InCone(env, r, id);
    forall d | d in Deps(env, id)
      ensures FromRoots(env, roots, d)
    {
      ReachAppend(DependencyGraph(env), r, id, d);
    }
  }

  lemma {:induction false} CollectHandlesKeeps(env: Env, s: State, id: string, handles: seq<string>, roots: set<string>)
    requires Invariant(env, s, roots)
    requires forall d :: d in HandleSources(env, id, handles) ==> FromRoots(env, roots, d)
    ensures var (t, inputs) := CollectHandles(env, s, id, handles);
            && Kept(env, s, t, roots)
            && (inputs.Ok? ==> HandleSources(env, id, handles) <= t.cache.Keys
                               && inputs.value == HandleInputs(env, t.cache, id, handles))
    decreases |Open(env, s.active)|, 2, |handles|
  {
    hide Invariant, FromRoots, Collect;
    if handles != [] {
      var edges := Incoming(env, id, handles[0]);
      CollectKeeps(env, s, edges, NO_INPUTS, roots);
      var (s1, first) := Collect(env, s, edges, NO_INPUTS);
      if first.Ok? {
        CollectHandlesKeeps(env, s1, id, handles[1..], roots);
        var (s2, rest) := CollectHandles(env, s1, id, handles[1..]);
        FoldIsStable(env, s1.cache, s2.cache, edges, NO_INPUTS);
      }
    }
  }

  lemma {:induction false} CollectKeeps(env: Env, s: State, edges: seq<Edge>, inputs: Inputs, roots: set<string>)
    requires Invariant(env, s, roots)
    requires forall d :: d in CollectedSources(env, edges) ==> FromRoots(env, roots, d)
    ensures var (t, result) := Collect(env, s, edges, inputs);
            && Kept(env, s, t, roots)
            && (result.Ok? ==> CollectedSources(env, edges) <= t.cache.Keys
                               && result.value == FoldInputs(env, t.cache, edges, inputs))
    decreases |Open(env, s.active)|, 1, |edges|
  {
    hide Invariant, FromRoots, ShouldCollect, Evaluate;
    if edges != [] {
      var source := edges[0].source;
      assert edges[0] in edges;
      assert CollectedSources(env, edges)
             == CollectedSources(env, edges[1..]) + (if ShouldCollect(env, source) then {source} else {});
      if !ShouldCollect(env, source) {
        CollectKeeps(env, s, edges[1..], inputs, roots);
      } else {
        EvaluateKeeps(env, s, source, roots);
        var (s1, outcome) := Evaluate(env, s, source);
        if outcome.Ok? {
          CollectKeeps(env, s1, edges[1..], Accumulate(inputs, outcome.value), roots);
        }
      }
    }
  }

  /** The same for a whole list of targets evaluated in turn. */
  lemma {:induction false} EvaluateAllKeeps(env: Env, s: State, targets: seq<string>, roots: set<string>)
    requires Invariant(env, s, roots) && forall id :: id in targets ==> id in roots
    ensures var (t, outcomes) := EvaluateAll(env, s, targets);
            Kept(env, s, t, roots) && |outcomes| == |targets|
            && forall i :: 0 <= i < |targets| && outcomes[i].Ok? ==>
                 targets[i] in t.cache && t.cache[targets[i]] == outcomes[i].value
    ensures var (t, _) := EvaluateAll(env, s, targets); forall id :: id in targets ==> id in t.results
    decreases |targets|
  {
    hide Evaluate, Invariant;
    if targets != [] {
      var front, last := targets[..|targets| - 1], targets[|targets| - 1];
      assert targets == front + [last];
      EvaluateAllKeeps(env, s, front, roots);
      var (s1, _) := EvaluateAll(env, s, front);
      assert last in targets;
      ReachSelf(DependencyGraph(env), last);
      assert FromRoots(env, roots, last);
      EvaluateKeeps(env, s1, last, roots);
    }
  }
}
