/** src/features/decision_maker/nodes.py and graph.py: the seven nodes, their two routers, and the two
    legs of a session. */
module DecisionGraph {
  import opened PyText

  datatype Node =
    | ContextAnalyzer
    | ToolNode
    | WeightQuestioner
    | WeightParser
    | DraftGenerator
    | CoveCritique
    | FinalSynthesizer

  /** The graph state; None where a field was never written. The last two are `_needs_data` and
      `_ready_for_weights`, which the router reads although the schema does not name them. */
  datatype State = State(
    userInput: Option<string>,
    dilemma: Option<string>,
    weights: Option<map<string, int>>,
    toolFacts: Option<seq<string>>,
    lastQuestion: Option<string>,
    draft: Option<string>,
    feedback: Option<string>,
    rewriteCount: Option<int>,
    sufficient: Option<bool>,
    userAnswer: Option<string>,
    queries: Option<seq<string>>,
    finalAnswer: Option<string>,
    assumptions: Option<string>,
    explicitNeedsData: Option<bool>,
    explicitReady: Option<bool>
  )

  /** What the models and the search service answer at one step; `fails` stands for any exception. */
  datatype Answers = Answers(
    fails: bool,
    dilemma: string,
    needsData: bool,
    queries: Option<seq<string>>,
    search: string -> seq<string>,
    question: string,
    weights: map<string, int>,
    assumptions: string,
    draft: string,
    needsRewrite: bool,
    feedback: string,
    final: string
  )

  function OrEmpty<T>(o: Option<seq<T>>): seq<T> {
    if o.Some? then o.value else []
  }

  function OrZero(o: Option<int>): int {
    if o.Some? then o.value else 0
  }

  // ---- What each node writes ----

  function Analyzed(st: State, a: Answers): State {
    st.(dilemma := Some(a.dilemma), sufficient := Some(!a.needsData), queries := if a.needsData then a.queries
        else Some([]))
  }

  function Flatten(parts: seq<seq<string>>): seq<string> {
    if parts == [] then [] else Flatten(parts[..|parts| - 1]) + parts[|parts| - 1]
  }

  /** The results of all queries, in the order of the queries. */
  function Results(queries: seq<string>, search: string -> seq<string>): seq<seq<string>> {
    seq(|queries|, i requires 0 <= i < |queries| => search(queries[i]))
  }

  function NewFacts(st: State, a: Answers): seq<string> {
    Flatten(Results(OrEmpty(st.queries), a.search))
  }

  function Searched(st: State, a: Answers): State {
    st.(toolFacts := Some(OrEmpty(st.toolFacts) + NewFacts(st, a)))
  }

  function Weighed(st: State, a: Answers): State {
    var st1 := st.(weights := Some(a.weights));
    if a.assumptions != "" then st1.(assumptions := Some(a.assumptions)) else st1
  }

  /** The audit: from the second rewrite on the wish for another is overruled, the feedback is not. */
  function Critiqued(st: State, a: Answers): State {
    var count := OrZero(st.rewriteCount);
    var needsRewrite := a.needsRewrite && count < 2;
    st.(feedback := Some(a.feedback), rewriteCount := Some(if needsRewrite then count + 1 else count))
  }

  function Delta(node: Node, st: State, a: Answers): State {
    match node
    case ContextAnalyzer => Analyzed(st, a)
    case ToolNode => Searched(st, a)
    case WeightQuestioner => st.(lastQuestion := Some(a.question))
    case WeightParser => Weighed(st, a)
    case DraftGenerator => st.(draft := Some(a.draft))
    case CoveCritique => Critiqued(st, a)
    case FinalSynthesizer => st.(finalAnswer := Some(a.final))
  }

  /** `tool_node`'s gather: searches complete in any order, each result lands in its query's place. */
  method Gather(queries: seq<string>, search: string -> seq<string>, order: seq<nat>) returns (facts: seq<string>)
    requires |order| == |queries|
    requires forall i :: 0 <= i < |queries| ==> i in order
    requires forall k :: 0 <= k < |order| ==> order[k] < |queries|
    ensures facts == Flatten(Results(queries, search))
  {
    hide Flatten;
    var gathered := new seq<string>[|queries|](_ => []);
    var k := 0;
    while k < |order|
      invariant 0 <= k <= |order|
      invariant forall j :: 0 <= j < k ==> gathered[order[j]] == search(queries[order[j]])
    {
      gathered[order[k]] := search(queries[order[k]]);
      k := k + 1;
    }
    forall i | 0 <= i < |queries| ensures gathered[i] == search(queries[i]) {
      assert i in order;
      var j :| 0 <= j < |order| && order[j] == i;
    }
    assert gathered[..] == Results(queries, search);
    facts := ChainFacts(gathered);
  }

  method ChainFacts(gathered: array<seq<string>>) returns (facts: seq<string>)
    ensures facts == Flatten(gathered[..])
  {
    facts := [];
    for i := 0 to gathered.Length
      invariant facts == Flatten(gathered[..i])
    {
      assert gathered[..i + 1][..i] == gathered[..i];
      facts := facts + gathered[i];
    }
    assert gathered[..gathered.Length] == gathered[..];
  }

  // ---- The routers ----

  /** Both explicit flags are present; only then does the router use them. */
  predicate Flagged(st: State) {
    st.explicitNeedsData.Some? && st.explicitReady.Some?
  }

  /** `route_from_context`; None is DoubleTrueError. */
  function RouteFromContext(st: State): Option<string> {
    var needsData := if Flagged(st) then st.explicitNeedsData.value
                     else st.sufficient != Some(true) && |OrEmpty(st.queries)| > 0;
    if Flagged(st) && st.explicitNeedsData.value && st.explicitReady.value then None
    else Some(if needsData then "tool" else "questioner")
  }

  /** The router's table: two explicit flags decide; without both, a state is sent to the questioner as soon as its
      data is sufficient, or nothing is asked. */
  lemma ContextRoutes(st: State, needs: bool, ready: bool)
    ensures (st.explicitNeedsData == Some(needs) && st.explicitReady == Some(ready)) ==>
              RouteFromContext(st)
              == if needs && ready then None else if needs then Some("tool") else Some("questioner")
    ensures (st.explicitNeedsData.None? || st.explicitReady.None?) ==>
              RouteFromContext(st)
              == if st.sufficient == Some(true) || st.queries.None? || st.queries == Some([]) then Some("questioner")
                 else Some("tool")
  {}

  predicate WantsRewrite(st: State) {
    OrEmpty(st.feedback) != "" && OrZero(st.rewriteCount) < 2
  }

  /** `route_from_critique` */
  function RouteFromCritique(st: State): string {
    if WantsRewrite(st) then "rewrite" else "finalize"
  }

  // ---- The graph ----

  datatype Router = FromContext | FromCritique

  datatype Edge = To(target: Node) | Ends | Choose(router: Router, routes: map<string, Node>)

  datatype Topology = Topology(nodes: set<Node>, start: Option<Node>, edges: map<Node, Edge>, interruptAfter: set<Node>)

  /** The graph `build_graph` compiles. */
  function Compiled(): Topology {
    Topology(
      {ContextAnalyzer, ToolNode, WeightQuestioner, WeightParser, DraftGenerator, CoveCritique, FinalSynthesizer},
      Some(ContextAnalyzer),
      map[ContextAnalyzer := Choose(FromContext, map["tool" := ToolNode, "questioner" := WeightQuestioner]),
          ToolNode := To(ContextAnalyzer),
          WeightQuestioner := To(WeightParser),
          WeightParser := To(DraftGenerator),
          DraftGenerator := To(CoveCritique),
          CoveCritique := Choose(FromCritique, map["rewrite" := DraftGenerator, "finalize" := FinalSynthesizer]),
          FinalSynthesizer := Ends],
      {WeightQuestioner})
  }

  /** `StateGraph`, as far as `build_graph` uses it. */
  class GraphBuilder {
    var nodes: set<Node>
    var start: Option<Node>
    var edges: map<Node, Edge>

    constructor ()
      ensures nodes == {} && start == None && edges == map[]
    {
      nodes, start, edges := {}, None, map[];
    }

    method AddNode(node: Node)
      modifies this`nodes
      ensures nodes == old(nodes) + {node}
    {
      nodes := nodes + {node};
    }

    method AddStart(node: Node)
      requires node in nodes
      modifies this`start
      ensures start == Some(node)
    {
      start := Some(node);
    }

    method AddEdge(from: Node, edge: Edge)
      requires from in nodes && from !in edges
      modifies this`edges
      ensures edges == old(edges)[from := edge]
    {
      edges := edges[from := edge];
    }

    method Compile(interruptAfter: set<Node>) returns (g: Topology)
      requires nodes == edges.Keys && interruptAfter <= nodes
      ensures g == Topology(nodes, start, edges, interruptAfter)
    {
      g := Topology(nodes, start, edges, interruptAfter);
    }
  }

  method BuildGraph() returns (g: Topology)
    ensures g == Compiled()
  {
    var graph := new GraphBuilder();
    RegisterNodes(graph);
    graph.AddStart(ContextAnalyzer);
    WireEdges(graph);
    AllHaveEdges();
    g := graph.Compile({WeightQuestioner});
  }

  method RegisterNodes(graph: GraphBuilder)
    requires graph.nodes == {}
    modifies graph`nodes
    ensures graph.nodes == Compiled().nodes
  {
    graph.AddNode(ContextAnalyzer);
    graph.AddNode(ToolNode);
    graph.AddNode(WeightQuestioner);
    graph.AddNode(WeightParser);
    graph.AddNode(DraftGenerator);
    graph.AddNode(CoveCritique);
    graph.AddNode(FinalSynthesizer);
  }

  method WireEdges(graph: GraphBuilder)
    requires graph.nodes == Compiled().nodes && graph.edges == map[]
    modifies graph`edges
    ensures graph.edges == Compiled().edges
  {
    graph.AddEdge(ContextAnalyzer, Choose(FromContext, map["tool" := ToolNode, "questioner" := WeightQuestioner]));
    graph.AddEdge(ToolNode, To(ContextAnalyzer));
    graph.AddEdge(WeightQuestioner, To(WeightParser));
    graph.AddEdge(WeightParser, To(DraftGenerator));
    graph.AddEdge(DraftGenerator, To(CoveCritique));
    graph.AddEdge(CoveCritique, Choose(FromCritique, map["rewrite" := DraftGenerator, "finalize" := FinalSynthesizer]));
    graph.AddEdge(FinalSynthesizer, Ends);
  }

  lemma AllHaveEdges()
    ensures Compiled().nodes == Compiled().edges.Keys && WeightQuestioner in Compiled().nodes
  {}

  // ---- Execution ----

  /** What follows a node: the next one, the end, the pause for the user, or an exception of the router. */
  datatype Onward = Go(node: Node) | Finish | Pause(then_: Node) | RouterRaised

  function Chosen(router: Router, st: State): Option<string> {
    match router
    case FromContext => RouteFromContext(st)
    case FromCritique => Some(RouteFromCritique(st))
  }

  function Follow(g: Topology, node: Node, st: State): Onward {
    if node !in g.edges then Finish
    else
      var next := match g.edges[node]
                  case Ends => Finish
                  case To(n) => Go(n)
                  case Choose(router, routes) =>
                    match Chosen(router, st)
                    case Some(route) => if route in routes then Go(routes[route]) else RouterRaised
                    case None => RouterRaised;
      if next.Go? && node in g.interruptAfter then Pause(next.node) else next
  }

  /** A node entered, with the state it found and the step whose answers it got. */
  datatype Visit = Visit(node: Node, st: State, step: nat)

  /** How a leg ends: at the pause or the end of the graph, by an exception of a node or of the router, or at the
      executor's step limit. */
  datatype Status = Paused | Finished | Raised | DoubleTrue | LimitReached

  /** The state a leg leaves in the checkpoint, its visits, and the node that is to be entered next. A node that
      raises has written nothing and is pending still. */
  datatype Outcome = Outcome(st: State, visits: seq<Visit>, status: Status, pending: Option<Node>)

  /** One leg: nodes run, and their writes are merged, until the graph pauses, ends, raises, or uses up the
      executor's step limit. */
  function Leg(g: Topology, node: Node, st: State, oracle: nat -> Answers, step: nat, limit: nat): Outcome
    decreases limit
  {
    if limit == 0 then Outcome(st, [], LimitReached, Some(node))
    else
      var v := Visit(node, st, step);
      if oracle(step).fails then Outcome(st, [v], Raised, Some(node))
      else
        var st1 := Delta(node, st, oracle(step));
        match Follow(g, node, st1)
        case Go(n) =>
          var rest := Leg(g, n, st1, oracle, step + 1, limit - 1);
          rest.(visits := [v] + rest.visits)
        case Finish => Outcome(st1, [v], Finished, None)
        case Pause(n) => Outcome(st1, [v], Paused, Some(n))
        case RouterRaised => Outcome(st, [v], DoubleTrue, Some(node))
  }

  function InitialState(userInput: string): State {
    State(Some(userInput), None, None, Some([]), None, None, None, Some(0), None, None, None, None, None, None, None)
  }

  /** The leg of `stream_session`. */
  function Start(userInput: string, oracle: nat -> Answers, limit: nat): Outcome {
    Leg(Compiled(), ContextAnalyzer, InitialState(userInput), oracle, 0, limit)
  }

  /** The leg of `stream_resume_session`: the answer is written into the checkpointed state, and the graph goes on
      from its pending node, whether that is the one behind the pause or one at which a leg was cut off. A graph
      that has ended has none. */
  function Resume(pending: Option<Node>, st: State, userAnswer: string, oracle: nat -> Answers, limit: nat): Outcome {
    var st0 := st.(userAnswer := Some(userAnswer));
    match pending
    case Some(node) => Leg(Compiled(), node, st0, oracle, 0, limit)
    case None => Outcome(st0, [], Finished, None)
  }

  function Nodes(visits: seq<Visit>): seq<Node> {
    if visits == [] then [] else [visits[0].node] + Nodes(visits[1..])
  }

  // ---- Where each node leads ----

  lemma FollowCompiled(node: Node, st: State)
    ensures Follow(Compiled(), node, st)
            == match node
               case ContextAnalyzer =>
                 (match RouteFromContext(st)
                  case Some(route) => if route == "tool" then Go(ToolNode) else Go(WeightQuestioner)
                  case None => RouterRaised)
               case ToolNode => Go(ContextAnalyzer)
               case WeightQuestioner => Pause(WeightParser)
               case WeightParser => Go(DraftGenerator)
               case DraftGenerator => Go(CoveCritique)
               case CoveCritique => if WantsRewrite(st) then Go(DraftGenerator) else Go(FinalSynthesizer)
               case FinalSynthesizer => Finish
  {
    hide WantsRewrite;
    RoutesDiffer();
  }

  lemma RoutesDiffer()
    ensures "tool" != "questioner" && "rewrite" != "finalize"
  {
    assert |"tool"| == 4 && |"questioner"| == 10 && |"rewrite"| == 7 && |"finalize"| == 8;
  }

  /** A leg, one step at a time, with the compiled graph's edges spelled out. */
  lemma LegStep(node: Node, st: State, oracle: nat -> Answers, step: nat, limit: nat)
    requires limit > 0
    ensures var o, v := Leg(Compiled(), node, st, oracle, step, limit), Visit(node, st, step);
            var st1 := Delta(node, st, oracle(step));
            if oracle(step).fails then o == Outcome(st, [v], Raised, Some(node))
            else match Follow(Compiled(), node, st1)
              case Go(n) =>
                var rest := Leg(Compiled(), n, st1, oracle, step + 1, limit - 1);
                o == rest.(visits := [v] + rest.visits)
              case Finish => o == Outcome(st1, [v], Finished, None)
              case Pause(n) => o == Outcome(st1, [v], Paused, Some(n))
              case RouterRaised => o == Outcome(st, [v], DoubleTrue, Some(node))
  {
    hide Compiled, Follow, Delta;
  }

  /** How many visited nodes the executor yields an update for: a node that raises, in its body or in its router,
      yields none. */
  function Yielded(o: Outcome): nat {
    |o.visits| - if o.visits != [] && (o.status == Raised || o.status == DoubleTrue) then 1 else 0
  }

  /** Only the last node of a leg can raise, and it has exactly when the leg's status says so. */
  lemma {:induction false} OnlyLastRaises(node: Node, st: State, oracle: nat -> Answers, step: nat, limit: nat, i: nat)
    requires i < |Leg(Compiled(), node, st, oracle, step, limit).visits|
    ensures var o := Leg(Compiled(), node, st, oracle, step, limit);
            var st1 := Delta(o.visits[i].node, o.visits[i].st, oracle(o.visits[i].step));
            i < Yielded(o) <==> (!oracle(o.visits[i].step).fails
                                 && !Follow(Compiled(), o.visits[i].node, st1).RouterRaised?)
    decreases limit
  {
    hide Compiled, Follow, Delta, Leg;
    LegZero(node, st, oracle, step);
    if limit > 0 {
      LegStep(node, st, oracle, step, limit);
      var st1 := Delta(node, st, oracle(step));
      if !oracle(step).fails && Follow(Compiled(), node, st1).Go? {
        var n := Follow(Compiled(), node, st1).node;
        RaisedWasVisited(n, st1, oracle, step + 1, limit - 1);
        if i > 0 { OnlyLastRaises(n, st1, oracle, step + 1, limit - 1, i - 1); }
      }
    }
  }

  lemma RaisedWasVisited(node: Node, st: State, oracle: nat -> Answers, step: nat, limit: nat)
    ensures var o := Leg(Compiled(), node, st, oracle, step, limit);
            o.status == Raised || o.status == DoubleTrue ==> o.visits != []
  {
    hide Compiled, Follow, Delta;
  }

  // ---- DoubleTrueError ----

  /** Both explicit flags are set and true. */
  predicate BothTrue(st: State) {
    st.explicitNeedsData == Some(true) && st.explicitReady == Some(true)
  }

  /** No node writes the explicit flags. */
  lemma FlagsAreKept(node: Node, st: State, a: Answers)
    ensures Delta(node, st, a).explicitNeedsData == st.explicitNeedsData
    ensures Delta(node, st, a).explicitReady == st.explicitReady
  {
    hide NewFacts;
  }

  lemma RouterRaisesExactly(node: Node, st: State)
    ensures Follow(Compiled(), node, st).RouterRaised? <==> node == ContextAnalyzer && BothTrue(st)
  {
    hide Follow, Compiled, WantsRewrite;
    FollowCompiled(node, st);
  }

  /** Whatever the models answer, DoubleTrueError ends a leg only if both flags are true in the state it starts
      from. */
  lemma {:induction false} DoubleTrueNeedsFlags(node: Node, st: State, oracle: nat -> Answers, step: nat, limit: nat)
    ensures var o := Leg(Compiled(), node, st, oracle, step, limit);
            && o.st.explicitNeedsData == st.explicitNeedsData && o.st.explicitReady == st.explicitReady
            && (o.status == DoubleTrue ==> BothTrue(st))
    decreases limit
  {
    hide Compiled, Follow, Delta, Leg;
    LegZero(node, st, oracle, step);
    if limit > 0 {
      LegStep(node, st, oracle, step, limit);
      var st1 := Delta(node, st, oracle(step));
      FlagsAreKept(node, st, oracle(step));
      RouterRaisesExactly(node, st1);
      if Follow(Compiled(), node, st1).Go? {
        DoubleTrueNeedsFlags(Follow(Compiled(), node, st1).node, st1, oracle, step + 1, limit - 1);
      }
    }
  }

  /** A leg from the analyzer ends in DoubleTrueError exactly when both flags are true at its start and the analyzer
      does not fail first. */
  lemma DoubleTrueExactly(st: State, oracle: nat -> Answers, step: nat, limit: nat)
    requires limit > 0
    ensures Leg(Compiled(), ContextAnalyzer, st, oracle, step, limit).status == DoubleTrue
            <==> BothTrue(st) && !oracle(step).fails
  {
    hide Compiled, Follow, Delta, Leg;
    LegStep(ContextAnalyzer, st, oracle, step, limit);
    FlagsAreKept(ContextAnalyzer, st, oracle(step));
    RouterRaisesExactly(ContextAnalyzer, Delta(ContextAnalyzer, st, oracle(step)));
    DoubleTrueNeedsFlags(ContextAnalyzer, st, oracle, step, limit);
  }

  /** Without the flags it is unreachable: no session's first leg, and no resumed leg of a state without them, ends in
      it or puts them there. */
  lemma DoubleTrueUnreachable(userInput: string, pending: Option<Node>, st: State, userAnswer: string,
                              oracle: nat -> Answers, limit: nat)
    requires st.explicitNeedsData.None? && st.explicitReady.None?
    ensures var o := Start(userInput, oracle, limit);
            o.status != DoubleTrue && o.st.explicitNeedsData.None? && o.st.explicitReady.None?
    ensures var o := Resume(pending, st, userAnswer, oracle, limit);
            o.status != DoubleTrue && o.st.explicitNeedsData.None? && o.st.explicitReady.None?
  {
    hide Leg, Compiled;
    DoubleTrueNeedsFlags(ContextAnalyzer, InitialState(userInput), oracle, 0, limit);
    if pending.Some? {
      DoubleTrueNeedsFlags(pending.value, st.(userAnswer := Some(userAnswer)), oracle, 0, limit);
    }
  }

  // ---- The shape of a run ----

  /** (1 2)* 1 3 */
  predicate StartShape(ns: seq<Node>) {
    ns == [ContextAnalyzer, WeightQuestioner]
    || (|ns| > 2 && ns[0] == ContextAnalyzer && ns[1] == ToolNode && StartShape(ns[2..]))
  }

  /** (4 5)+ 6 */
  predicate DraftShape(ns: seq<Node>) {
    |ns| > 2 && ns[0] == DraftGenerator && ns[1] == CoveCritique
    && (ns[2..] == [FinalSynthesizer] || DraftShape(ns[2..]))
  }

  /** 3.5 (4 5)+ 6 */
  predicate ResumeShape(ns: seq<Node>) {
    ns != [] && ns[0] == WeightParser && DraftShape(ns[1..])
  }

  lemma NodesCons(v: Visit, vs: seq<Visit>)
    ensures Nodes([v] + vs) == [v.node] + Nodes(vs)
  {
    assert ([v] + vs)[1..] == vs;
  }

  lemma NodesOne(v: Visit)
    ensures Nodes([v]) == [v.node]
  {
    assert [v][1..] == [];
  }

  lemma {:induction false} StartLegShape(st: State, oracle: nat -> Answers, step: nat, limit: nat)
    requires Leg(Compiled(), ContextAnalyzer, st, oracle, step, limit).status == Paused
    ensures StartShape(Nodes(Leg(Compiled(), ContextAnalyzer, st, oracle, step, limit).visits))
    decreases limit
  {
    hide Compiled, Follow, Delta, Leg;
    LegZero(ContextAnalyzer, st, oracle, step);
    LegStep(ContextAnalyzer, st, oracle, step, limit);
    var st1 := Delta(ContextAnalyzer, st, oracle(step));
    FollowCompiled(ContextAnalyzer, st1);
    var n := Follow(Compiled(), ContextAnalyzer, st1).node;
    LegZero(n, st1, oracle, step + 1);
    LegStep(n, st1, oracle, step + 1, limit - 1);
    var st2 := Delta(n, st1, oracle(step + 1));
    FollowCompiled(n, st2);
    var v1, v2 := Visit(ContextAnalyzer, st, step), Visit(n, st1, step + 1);
    if n == ToolNode {
      StartLegShape(st2, oracle, step + 2, limit - 2);
      var rest := Leg(Compiled(), ContextAnalyzer, st2, oracle, step + 2, limit - 2).visits;
      NodesCons(v1, [v2] + rest);
      NodesCons(v2, rest);
      TwoMore(ContextAnalyzer, ToolNode, Nodes(rest));
      StartNotEmpty(Nodes(rest));
    } else {
      NodesCons(v1, [v2]);
      NodesOne(v2);
    }
  }

  lemma TwoMore(a: Node, b: Node, ns: seq<Node>)
    ensures ([a] + ([b] + ns))[2..] == ns && ([a] + ([b] + ns))[0] == a && ([a] + ([b] + ns))[1] == b
  {}

  lemma StartNotEmpty(ns: seq<Node>)
    requires StartShape(ns)
    ensures ns != []
  {}

  lemma LegZero(node: Node, st: State, oracle: nat -> Answers, step: nat)
    ensures Leg(Compiled(), node, st, oracle, step, 0) == Outcome(st, [], LimitReached, Some(node))
  {}

  lemma {:induction false} DraftLegShape(st: State, oracle: nat -> Answers, step: nat, limit: nat)
    requires Leg(Compiled(), DraftGenerator, st, oracle, step, limit).status == Finished
    ensures DraftShape(Nodes(Leg(Compiled(), DraftGenerator, st, oracle, step, limit).visits))
    decreases limit
  {
    hide Compiled, Follow, Delta, Leg, WantsRewrite;
    LegZero(DraftGenerator, st, oracle, step);
    LegStep(DraftGenerator, st, oracle, step, limit);
    var st1 := Delta(DraftGenerator, st, oracle(step));
    FollowCompiled(DraftGenerator, st1);
    LegZero(CoveCritique, st1, oracle, step + 1);
    LegStep(CoveCritique, st1, oracle, step + 1, limit - 1);
    var st2 := Delta(CoveCritique, st1, oracle(step + 1));
    FollowCompiled(CoveCritique, st2);
    var n := Follow(Compiled(), CoveCritique, st2).node;
    var rest := Leg(Compiled(), n, st2, oracle, step + 2, limit - 2).visits;
    NodesCons(Visit(DraftGenerator, st, step), [Visit(CoveCritique, st1, step + 1)] + rest);
    NodesCons(Visit(CoveCritique, st1, step + 1), rest);
    TwoMore(DraftGenerator, CoveCritique, Nodes(rest));
    if n == DraftGenerator {
      DraftLegShape(st2, oracle, step + 2, limit - 2);
      DraftNotEmpty(Nodes(rest));
    } else {
      FinalLeg(st2, oracle, step + 2, limit - 2);
      NodesOne(Visit(FinalSynthesizer, st2, step + 2));
    }
  }

  lemma DraftNotEmpty(ns: seq<Node>)
    requires DraftShape(ns)
    ensures ns != []
  {}

  lemma FinalLeg(st: State, oracle: nat -> Answers, step: nat, limit: nat)
    requires Leg(Compiled(), FinalSynthesizer, st, oracle, step, limit).status == Finished
    ensures Leg(Compiled(), FinalSynthesizer, st, oracle, step, limit)
            == Outcome(Delta(FinalSynthesizer, st, oracle(step)), [Visit(FinalSynthesizer, st, step)], Finished, None)
  {
    hide Compiled, Follow, Delta, Leg;
    LegZero(FinalSynthesizer, st, oracle, step);
    LegStep(FinalSynthesizer, st, oracle, step, limit);
    FollowCompiled(FinalSynthesizer, Delta(FinalSynthesizer, st, oracle(step)));
  }

  /** Every first leg that reaches the pause has visited (1 2)* 1 3. */
  lemma StartTrace(userInput: string, oracle: nat -> Answers, limit: nat)
    requires Start(userInput, oracle, limit).status == Paused
    ensures StartShape(Nodes(Start(userInput, oracle, limit).visits))
  {
    hide Leg;
    StartLegShape(InitialState(userInput), oracle, 0, limit);
  }

  /** The part of (1 2)* 1 3 or 3.5 (4 5)+ 6 that begins at the given node. */
  predicate RestShape(node: Node, ns: seq<Node>) {
    ns != [] && ns[0] == node && match node
    case ContextAnalyzer => StartShape(ns)
    case ToolNode => StartShape(ns[1..])
    case WeightQuestioner => ns[1..] == []
    case WeightParser => DraftShape(ns[1..])
    case DraftGenerator => DraftShape(ns)
    case CoveCritique => ns[1..] == [FinalSynthesizer] || DraftShape(ns[1..])
    case FinalSynthesizer => ns[1..] == []
  }

  /** The nodes up to the pause, and those behind it. */
  predicate InLeg(first: bool, node: Node) {
    if first then node == ContextAnalyzer || node == ToolNode || node == WeightQuestioner
    else node == WeightParser || node == DraftGenerator || node == CoveCritique || node == FinalSynthesizer
  }

  /** From whatever node a leg starts, if it comes to the pause it started before the pause, if it comes to the end
      it started behind it, and its visits are what is left of the run from there. */
  lemma LegTrace(node: Node, st: State, oracle: nat -> Answers, step: nat, limit: nat)
    ensures var o := Leg(Compiled(), node, st, oracle, step, limit);
            o.status == Paused || o.status == Finished ==>
              RestShape(node, Nodes(o.visits)) && InLeg(o.status == Paused, node)
  {
    hide Compiled, Follow, Delta, Leg, DraftShape, StartShape, WantsRewrite;
    LegZero(node, st, oracle, step);
    if limit > 0 {
      LegStep(node, st, oracle, step, limit);
      var st1, v := Delta(node, st, oracle(step)), Visit(node, st, step);
      FollowCompiled(node, st1);
      HalvesStay(node, st, oracle, step, limit);
      NodesOne(v);
      var o := Leg(Compiled(), node, st, oracle, step, limit);
      if Follow(Compiled(), node, st1).Go? && (o.status == Paused || o.status == Finished) {
        var n := Follow(Compiled(), node, st1).node;
        var rest := Leg(Compiled(), n, st1, oracle, step + 1, limit - 1);
        NodesCons(v, rest.visits);
        assert ([node] + Nodes(rest.visits))[1..] == Nodes(rest.visits);
        match n {
          case ContextAnalyzer => StartLegShape(st1, oracle, step + 1, limit - 1);
          case DraftGenerator => DraftLegShape(st1, oracle, step + 1, limit - 1);
          case _ =>
        }
        if node == ContextAnalyzer { StartLegShape(st, oracle, step, limit); }
        if node == DraftGenerator { DraftLegShape(st, oracle, step, limit); }
        if n == FinalSynthesizer {
          FinalLeg(st1, oracle, step + 1, limit - 1);
          NodesOne(Visit(FinalSynthesizer, st1, step + 1));
        }
      }
    }
  }

  /** A leg ends at the pause only from before it, and at the end only from behind it. */
  lemma {:induction false} HalvesStay(node: Node, st: State, oracle: nat -> Answers, step: nat, limit: nat)
    ensures var o := Leg(Compiled(), node, st, oracle, step, limit);
            (o.status == Paused ==> InLeg(true, node)) && (o.status == Finished ==> InLeg(false, node))
    decreases limit
  {
    hide Compiled, Follow, Delta, Leg, WantsRewrite;
    LegZero(node, st, oracle, step);
    if limit > 0 {
      LegStep(node, st, oracle, step, limit);
      var st1 := Delta(node, st, oracle(step));
      FollowCompiled(node, st1);
      if Follow(Compiled(), node, st1).Go? {
        HalvesStay(Follow(Compiled(), node, st1).node, st1, oracle, step + 1, limit - 1);
      }
    }
  }

  /** Every resumed leg that comes to the end or to the pause has visited what was left of the run from its pending
      node: after the pause, 3.5 (4 5)+ 6; after a cut-off, the rest. */
  lemma ResumeTrace(pending: Option<Node>, st: State, userAnswer: string, oracle: nat -> Answers, limit: nat)
    ensures var o := Resume(pending, st, userAnswer, oracle, limit);
            match pending
            case None => o.visits == [] && o.status == Finished
            case Some(node) =>
              o.status == Paused || o.status == Finished ==>
                RestShape(node, Nodes(o.visits)) && InLeg(o.status == Paused, node)
  {
    hide Leg, RestShape, Compiled;
    if pending.Some? { LegTrace(pending.value, st.(userAnswer := Some(userAnswer)), oracle, 0, limit); }
  }

  // ---- What holds at every visit ----

  /** What is true whenever a node is entered. */
  predicate WellEntered(v: Visit) {
    && (v.node == ToolNode && !Flagged(v.st) ==> |OrEmpty(v.st.queries)| > 0 && v.st.sufficient != Some(true))
    && (v.node == WeightQuestioner && !Flagged(v.st) ==>
          v.st.sufficient == Some(true) || OrEmpty(v.st.queries) == [])
    && (v.node == FinalSynthesizer ==> !WantsRewrite(v.st))
  }

  /** Fields only some nodes write, along a leg. */
  predicate Carried(st0: State, v: Visit) {
    && v.st.userInput == st0.userInput && v.st.userAnswer == st0.userAnswer && v.st.finalAnswer == st0.finalAnswer
    && v.st.explicitNeedsData == st0.explicitNeedsData && v.st.explicitReady == st0.explicitReady
    && OrEmpty(st0.toolFacts) <= OrEmpty(v.st.toolFacts)
    && OrZero(st0.rewriteCount) <= OrZero(v.st.rewriteCount)
    && (OrZero(st0.rewriteCount) <= 2 ==> OrZero(v.st.rewriteCount) <= 2)
  }

  lemma DeltaCarries(node: Node, st: State, a: Answers)
    ensures var v := Visit(node, Delta(node, st, a), 0);
            node != FinalSynthesizer ==> Carried(st, v)
    ensures node == FinalSynthesizer ==> Delta(node, st, a) == st.(finalAnswer := Some(a.final))
  {
    hide NewFacts;
  }

  lemma CarriedTrans(st0: State, st1: State, v: Visit)
    requires Carried(st0, Visit(v.node, st1, 0)) && Carried(st1, v)
    ensures Carried(st0, v)
  {
    var a, b, c := OrEmpty(st0.toolFacts), OrEmpty(st1.toolFacts), OrEmpty(v.st.toolFacts);
    assert a <= c by { assert a == b[..|a|] && b == c[..|b|] && b[..|a|] == c[..|b|][..|a|]
        && c[..|b|][..|a|] == c[..|a|]; }
  }

  lemma EnteredWell(node: Node, st: State, a: Answers)
    ensures var st1 := Delta(node, st, a);
            Follow(Compiled(), node, st1).Go? ==> WellEntered(Visit(Follow(Compiled(), node, st1).node, st1, 0))
    ensures var st1 := Delta(node, st, a);
            Follow(Compiled(), node, st1).Go? ==> forall first :: InLeg(first, node) ==>
                InLeg(first, Follow(Compiled(), node, st1).node)
  {
    hide Compiled, Follow, NewFacts, WantsRewrite;
    FollowCompiled(node, Delta(node, st, a));
    RoutesDiffer();
  }

  /** At every visit of every leg: the tool node is entered only with queries, the question only without need of
      data, the synthesis only when no rewrite is due; facts only grow, the rewrite count only grows and stays
      at most 2, and the final answer is not written before the last node. */
  lemma {:induction false} VisitsAreSound(first: bool, node: Node, st: State, oracle: nat -> Answers, step: nat,
                                limit: nat, i: nat)
    requires InLeg(first, node) && WellEntered(Visit(node, st, step))
    requires i < |Leg(Compiled(), node, st, oracle, step, limit).visits|
    ensures var v := Leg(Compiled(), node, st, oracle, step, limit).visits[i];
            InLeg(first, v.node) && WellEntered(v) && Carried(st, v) && v.step == step + i
    decreases limit
  {
    hide Compiled, Follow, Delta, Leg, WellEntered, Carried;
    LegZero(node, st, oracle, step);
    LegStep(node, st, oracle, step, limit);
    CarriedSelf(st, Visit(node, st, step));
    if i > 0 {
      var st1 := Delta(node, st, oracle(step));
      EnteredWell(node, st, oracle(step));
      var n := Follow(Compiled(), node, st1).node;
      StepIrrelevant(n, st1, 0, step + 1);
      VisitsAreSound(first, n, st1, oracle, step + 1, limit - 1, i - 1);
      var v := Leg(Compiled(), n, st1, oracle, step + 1, limit - 1).visits[i - 1];
      LastNodeStops(node, st1);
      DeltaCarries(node, st, oracle(step));
      NodeIrrelevant(st, node, v.node, st1);
      CarriedTrans(st, st1, v);
    }
  }

  lemma LastNodeStops(node: Node, st1: State)
    ensures Follow(Compiled(), node, st1).Go? ==> node != FinalSynthesizer
  {
    hide Follow, Compiled;
    FollowCompiled(node, st1);
  }

  lemma StepIrrelevant(node: Node, st: State, a: nat, b: nat)
    requires WellEntered(Visit(node, st, a))
    ensures WellEntered(Visit(node, st, b))
  {
    hide WantsRewrite;
  }

  lemma NodeIrrelevant(st0: State, node: Node, other: Node, st1: State)
    requires Carried(st0, Visit(node, st1, 0))
    ensures Carried(st0, Visit(other, st1, 0))
  {}

  lemma CarriedSelf(st: State, v: Visit)
    requires v.st == st
    ensures Carried(st, v)
  {}

  /** The visits of a leg are a path of the compiled graph: each state is what the node before wrote, and each
      node is where its router sends it. */
  lemma {:induction false} VisitsFollow(node: Node, st: State, oracle: nat -> Answers, step: nat, limit: nat, i: nat)
    requires i + 1 < |Leg(Compiled(), node, st, oracle, step, limit).visits|
    ensures var vs := Leg(Compiled(), node, st, oracle, step, limit).visits;
            && vs[i + 1].st == Delta(vs[i].node, vs[i].st, oracle(vs[i].step)) && vs[i + 1].step == vs[i].step + 1
            && Follow(Compiled(), vs[i].node, vs[i + 1].st) == Go(vs[i + 1].node)
    ensures var vs := Leg(Compiled(), node, st, oracle, step, limit).visits; vs[0] == Visit(node, st, step)
    decreases limit
  {
    hide Compiled, Follow, Delta, Leg;
    LegZero(node, st, oracle, step);
    LegStep(node, st, oracle, step, limit);
    var st1 := Delta(node, st, oracle(step));
    var n := Follow(Compiled(), node, st1).node;
    var rest := Leg(Compiled(), n, st1, oracle, step + 1, limit - 1).visits;
    if i == 0 {
      LegZero(n, st1, oracle, step + 1);
      LegStep(n, st1, oracle, step + 1, limit - 1);
    } else {
      VisitsFollow(n, st1, oracle, step + 1, limit - 1, i - 1);
    }
  }

  /** What a search finds for each query in turn. */
  function Searches(queries: seq<string>, search: string -> seq<string>): seq<string> {
    if queries == [] then [] else search(queries[0]) + Searches(queries[1..], search)
  }

  lemma {:induction false} SearchesOne(queries: seq<string>, last: string, search: string -> seq<string>)
    ensures Searches(queries + [last], search) == Searches(queries, search) + search(last)
  {
    if queries == [] {
      assert [last][1..] == [];
      assert queries + [last] == [last];
    } else {
      assert (queries + [last])[1..] == queries[1..] + [last];
      SearchesOne(queries[1..], last, search);
    }
  }

  lemma {:induction false} SearchesFlatten(queries: seq<string>, search: string -> seq<string>)
    ensures Flatten(Results(queries, search)) == Searches(queries, search)
  {
    if queries != [] {
      var front, last := queries[..|queries| - 1], queries[|queries| - 1];
      assert queries == front + [last];
      assert Results(queries, search)[..|queries| - 1] == Results(front, search);
      SearchesFlatten(front, search);
      SearchesOne(front, last, search);
    }
  }

  /** In every leg of a state without the explicit flags, an analyzer that asks for data and names queries is
      followed by the tool node, which searches exactly those queries and goes back to the analyzer; every other
      analyzer is followed by the questioner. */
  lemma AnalyzerDecides(node: Node, st: State, oracle: nat -> Answers, step: nat, limit: nat, i: nat)
    requires st.explicitNeedsData.None? && st.explicitReady.None?
    requires var vs := Leg(Compiled(), node, st, oracle, step, limit).visits;
             i + 1 < |vs| && vs[i].node == ContextAnalyzer
    ensures var vs := Leg(Compiled(), node, st, oracle, step, limit).visits;
            var a := oracle(vs[i].step);
            if a.needsData && a.queries.Some? && a.queries.value != [] then
              && vs[i + 1].node == ToolNode
              && (i + 2 < |vs| ==>
                    && vs[i + 2].node == ContextAnalyzer
                    && OrEmpty(vs[i + 2].st.toolFacts) == OrEmpty(vs[i].st.toolFacts)
                                                          + Searches(a.queries.value, oracle(vs[i + 1].step).search))
            else vs[i + 1].node == WeightQuestioner
  {
    var vs := Leg(Compiled(), node, st, oracle, step, limit).visits;
    hide Leg, Compiled, Follow, Searches, Flatten, Results, WellEntered;
    VisitsFollow(node, st, oracle, step, limit, i);
    FlagsStay(node, st, oracle, step, limit, i + 1);
    FollowCompiled(vs[i].node, vs[i + 1].st);
    RoutesDiffer();
    var a := oracle(vs[i].step);
    if a.needsData && a.queries.Some? && a.queries.value != [] && i + 2 < |vs| {
      VisitsFollow(node, st, oracle, step, limit, i + 1);
      FollowCompiled(vs[i + 1].node, vs[i + 2].st);
      SearchesFlatten(a.queries.value, oracle(vs[i + 1].step).search);
    }
  }

  lemma {:induction false} FlagsStay(node: Node, st: State, oracle: nat -> Answers, step: nat, limit: nat, i: nat)
    requires i < |Leg(Compiled(), node, st, oracle, step, limit).visits|
    ensures var v := Leg(Compiled(), node, st, oracle, step, limit).visits[i];
            v.st.explicitNeedsData == st.explicitNeedsData && v.st.explicitReady == st.explicitReady
  {
    hide Leg, Compiled, Follow, Delta;
    var vs := Leg(Compiled(), node, st, oracle, step, limit).visits;
    if i == 0 {
      FirstVisit(node, st, oracle, step, limit);
    } else {
      FlagsStay(node, st, oracle, step, limit, i - 1);
      VisitsFollow(node, st, oracle, step, limit, i - 1);
      FlagsAreKept(vs[i - 1].node, vs[i - 1].st, oracle(vs[i - 1].step));
    }
  }

  lemma FirstVisit(node: Node, st: State, oracle: nat -> Answers, step: nat, limit: nat)
    requires Leg(Compiled(), node, st, oracle, step, limit).visits != []
    ensures Leg(Compiled(), node, st, oracle, step, limit).visits[0] == Visit(node, st, step)
  {
    hide Compiled, Follow, Delta;
  }

  predicate NoneBetween(vs: seq<Visit>, node: Node, i: nat, j: nat)
    requires i < j < |vs|
  {
    forall k :: i < k < j ==> vs[k].node != node
  }

  /** Every node works on the latest answers: what a node answered stands in the state of every later visit, up to
      and including the next visit of that node. */
  lemma {:induction false} LatestAnswersStand(node: Node, st: State, oracle: nat -> Answers, step: nat, limit: nat,
                                              i: nat, j: nat)
    requires i < j < |Leg(Compiled(), node, st, oracle, step, limit).visits|
    requires var vs := Leg(Compiled(), node, st, oracle, step, limit).visits; NoneBetween(vs, vs[i].node, i, j)
    ensures var vs := Leg(Compiled(), node, st, oracle, step, limit).visits;
            var a, st1 := oracle(vs[i].step), vs[j].st;
            match vs[i].node
            case ContextAnalyzer =>
              && st1.dilemma == Some(a.dilemma) && st1.sufficient == Some(!a.needsData)
              && st1.queries == if a.needsData then a.queries else Some([])
            case WeightQuestioner => st1.lastQuestion == Some(a.question)
            case WeightParser =>
              st1.weights == Some(a.weights) && (a.assumptions != "" ==> st1.assumptions == Some(a.assumptions))
            case DraftGenerator => st1.draft == Some(a.draft)
            case CoveCritique => st1.feedback == Some(a.feedback)
            case _ => true
  {
    hide Leg, Compiled, Follow, NewFacts;
    var vs := Leg(Compiled(), node, st, oracle, step, limit).visits;
    VisitsFollow(node, st, oracle, step, limit, j - 1);
    if i + 1 < j {
      assert NoneBetween(vs, vs[i].node, i, j - 1);
      assert vs[j - 1].node != vs[i].node;
      LatestAnswersStand(node, st, oracle, step, limit, i, j - 1);
    }
  }

  /** Before the pause nothing is counted as a rewrite. */
  lemma {:induction false} CountStays(node: Node, st: State, oracle: nat -> Answers, step: nat, limit: nat, i: nat)
    requires InLeg(true, node) && i < |Leg(Compiled(), node, st, oracle, step, limit).visits|
    ensures var v := Leg(Compiled(), node, st, oracle, step, limit).visits[i];
            v.st.rewriteCount == st.rewriteCount && InLeg(true, v.node)
  {
    hide Leg, Compiled, Follow, NewFacts;
    var vs := Leg(Compiled(), node, st, oracle, step, limit).visits;
    if i == 0 {
      FirstVisit(node, st, oracle, step, limit);
    } else {
      CountStays(node, st, oracle, step, limit, i - 1);
      VisitsFollow(node, st, oracle, step, limit, i - 1);
      FollowCompiled(vs[i - 1].node, vs[i].st);
    }
  }

  /** In a session's first leg no draft is made, the tool node always has a query, and nothing is answered yet. */
  lemma StartVisits(userInput: string, oracle: nat -> Answers, limit: nat, i: nat)
    requires i < |Start(userInput, oracle, limit).visits|
    ensures var v := Start(userInput, oracle, limit).visits[i];
            && v.node != DraftGenerator && v.node != FinalSynthesizer
            && (v.node == ToolNode ==> |OrEmpty(v.st.queries)| > 0)
            && v.st.userAnswer == None && v.st.finalAnswer == None && v.st.userInput == Some(userInput)
            && v.st.rewriteCount == Some(0) && (i == 0 ==> v.st.toolFacts == Some([]))
  {
    hide Leg, Compiled;
    FirstVisit(ContextAnalyzer, InitialState(userInput), oracle, 0, limit);
    CountStays(ContextAnalyzer, InitialState(userInput), oracle, 0, limit, i);
    VisitsAreSound(true, ContextAnalyzer, InitialState(userInput), oracle, 0, limit, i);
  }

  /** In a resumed leg every node works on the injected answer, from whatever node the leg goes on, and the final
      answer is still what the checkpoint had. */
  lemma ResumeVisits(pending: Node, st: State, userAnswer: string, oracle: nat -> Answers, limit: nat, i: nat)
    requires WellEntered(Visit(pending, st, 0))
    requires i < |Resume(Some(pending), st, userAnswer, oracle, limit).visits|
    ensures var v := Resume(Some(pending), st, userAnswer, oracle, limit).visits[i];
            && InLeg(InLeg(true, pending), v.node)
            && v.st.userAnswer == Some(userAnswer) && v.st.finalAnswer == st.finalAnswer
            && OrZero(st.rewriteCount) <= OrZero(v.st.rewriteCount)
            && (OrZero(st.rewriteCount) <= 2 ==> OrZero(v.st.rewriteCount) <= 2)
            && (v.node == FinalSynthesizer ==> !WantsRewrite(v.st))
  {
    hide Leg, Compiled;
    VisitsAreSound(InLeg(true, pending), pending, st.(userAnswer := Some(userAnswer)), oracle, 0, limit, i);
  }

  // ---- Sessions of many legs, cut off and resumed ----

  /** What a checkpoint between two legs satisfies: its pending node was properly entered, the test flags are not
      there, nothing is answered while a node is pending, and the rewrite count is within its cap. */
  predicate Resumable(pending: Option<Node>, st: State) {
    && (pending.Some? ==> WellEntered(Visit(pending.value, st, 0)) && st.finalAnswer == None)
    && st.explicitNeedsData.None? && st.explicitReady.None?
    && 0 <= OrZero(st.rewriteCount) <= 2
  }

  lemma DeltaKeepsResumable(node: Node, st: State, a: Answers)
    requires Resumable(Some(node), st)
    ensures Resumable(None, Delta(node, st, a))
    ensures node != FinalSynthesizer ==> Delta(node, st, a).finalAnswer == None
  {
    hide NewFacts, WellEntered;
  }

  lemma PausedWell(st: State)
    ensures WellEntered(Visit(WeightParser, st, 0))
  {}

  /** A leg leaves such a checkpoint however it ends, and stays in its half unless it pauses. */
  lemma {:induction false} LegKeepsResumable(node: Node, st: State, oracle: nat -> Answers, step: nat, limit: nat)
    requires Resumable(Some(node), st)
    ensures var o := Leg(Compiled(), node, st, oracle, step, limit);
            && Resumable(o.pending, o.st)
            && (o.pending.Some? && InLeg(false, o.pending.value) ==> o.status == Paused || InLeg(false, node))
    decreases limit
  {
    hide Compiled, Follow, Delta, Leg, WellEntered;
    LegZero(node, st, oracle, step);
    if limit > 0 {
      LegStep(node, st, oracle, step, limit);
      var st1 := Delta(node, st, oracle(step));
      DeltaKeepsResumable(node, st, oracle(step));
      EnteredWell(node, st, oracle(step));
      LastNodeStops(node, st1);
      FollowCompiled(node, st1);
      PausedWell(st1);
      if Follow(Compiled(), node, st1).Go? {
        LegKeepsResumable(Follow(Compiled(), node, st1).node, st1, oracle, step + 1, limit - 1);
      }
    }
  }

  /** The input to one resumption. */
  datatype Resumption = Resumption(userAnswer: string, oracle: nat -> Answers, limit: nat)

  /** The legs of one session: the first, and one for each resumption, each from what the one before left. */
  predicate IsSession(userInput: string, oracle: nat -> Answers, limit: nat, rs: seq<Resumption>, legs: seq<Outcome>) {
    && |legs| == |rs| + 1 && legs[0] == Start(userInput, oracle, limit)
    && forall k :: 0 <= k < |rs| ==>
         legs[k + 1] == Resume(legs[k].pending, legs[k].st, rs[k].userAnswer, rs[k].oracle, rs[k].limit)
  }

  lemma InitialIsResumable(userInput: string)
    ensures Resumable(Some(ContextAnalyzer), InitialState(userInput))
  {}

  lemma AnswerKeepsResumable(pending: Option<Node>, st: State, userAnswer: string)
    requires Resumable(pending, st)
    ensures Resumable(pending, st.(userAnswer := Some(userAnswer)))
  {}

  /** After every leg of every session the checkpoint is sound, and a node behind the pause is pending only if some
      leg has paused. */
  lemma {:induction false} SessionIsResumable(userInput: string, oracle: nat -> Answers, limit: nat,
                                              rs: seq<Resumption>, legs: seq<Outcome>, k: nat)
    requires IsSession(userInput, oracle, limit, rs, legs) && k < |legs|
    ensures Resumable(legs[k].pending, legs[k].st)
    ensures legs[k].pending.Some? && InLeg(false, legs[k].pending.value) ==>
              exists j :: 0 <= j <= k && legs[j].status == Paused
  {
    hide Leg, Compiled, Resumable, InLeg;
    if k == 0 {
      InitialIsResumable(userInput);
      LegKeepsResumable(ContextAnalyzer, InitialState(userInput), oracle, 0, limit);
      assert !InLeg(false, ContextAnalyzer) by { AnalyzerIsFirst(); }
    } else {
      SessionIsResumable(userInput, oracle, limit, rs, legs, k - 1);
      var pending, st, r := legs[k - 1].pending, legs[k - 1].st, rs[k - 1];
      assert legs[(k - 1) + 1] == Resume(pending, st, r.userAnswer, r.oracle, r.limit);
      AnswerKeepsResumable(pending, st, r.userAnswer);
      if pending.Some? {
        LegKeepsResumable(pending.value, st.(userAnswer := Some(r.userAnswer)), r.oracle, 0, r.limit);
      }
    }
  }

  /** A leg leaves no pending node only at the end of the graph. */
  lemma {:induction false} PendingUnlessFinished(node: Node, st: State, oracle: nat -> Answers, step: nat, limit: nat)
    ensures var o := Leg(Compiled(), node, st, oracle, step, limit); o.pending.None? ==> o.status == Finished
    decreases limit
  {
    hide Compiled, Follow, Delta, Leg;
    LegZero(node, st, oracle, step);
    if limit > 0 {
      LegStep(node, st, oracle, step, limit);
      var st1 := Delta(node, st, oracle(step));
      if Follow(Compiled(), node, st1).Go? {
        PendingUnlessFinished(Follow(Compiled(), node, st1).node, st1, oracle, step + 1, limit - 1);
      }
    }
  }

  /** A first leg that does not come to the question leaves a node before the pause pending. */
  lemma CutOffPending(userInput: string, oracle: nat -> Answers, limit: nat)
    requires Start(userInput, oracle, limit).status != Paused
    ensures var o := Start(userInput, oracle, limit);
            o.status != Finished && o.pending.Some? && InLeg(true, o.pending.value) && Resumable(o.pending, o.st)
  {
    hide Leg, Compiled, Resumable, InLeg;
    AnalyzerIsFirst();
    LegTrace(ContextAnalyzer, InitialState(userInput), oracle, 0, limit);
    PendingUnlessFinished(ContextAnalyzer, InitialState(userInput), oracle, 0, limit);
    InitialIsResumable(userInput);
    LegKeepsResumable(ContextAnalyzer, InitialState(userInput), oracle, 0, limit);
    var o := Start(userInput, oracle, limit);
    if o.pending.Some? { HalvesCover(o.pending.value); }
  }

  lemma AnalyzerIsFirst()
    ensures InLeg(true, ContextAnalyzer) && !InLeg(false, ContextAnalyzer)
  {}

  lemma HalvesCover(node: Node)
    ensures InLeg(true, node) <==> !InLeg(false, node)
  {}

  lemma VisitClauses(v: Visit)
    requires WellEntered(v) && v.st.explicitNeedsData.None?
    ensures v.node == ToolNode ==> |OrEmpty(v.st.queries)| > 0
    ensures v.node == FinalSynthesizer ==> !WantsRewrite(v.st)
  {}

  /** At every visit of every leg of a session, whatever was cut off and resumed: the tool node has a query, nothing
      is answered yet, the rewrite count is within its cap, no rewrite is due at the synthesis, and no node behind
      the pause is entered before a leg has paused and been resumed. */
  lemma SessionVisits(userInput: string, oracle: nat -> Answers, limit: nat, rs: seq<Resumption>, legs: seq<Outcome>,
                      k: nat, i: nat)
    requires IsSession(userInput, oracle, limit, rs, legs) && k < |legs| && i < |legs[k].visits|
    ensures var v := legs[k].visits[i];
            && (v.node == ToolNode ==> |OrEmpty(v.st.queries)| > 0)
            && (v.node == FinalSynthesizer ==> !WantsRewrite(v.st))
            && v.st.finalAnswer == None && 0 <= OrZero(v.st.rewriteCount) <= 2
            && (InLeg(false, v.node) ==> exists j :: 0 <= j < k && legs[j].status == Paused)
  {
    hide Leg, Compiled, InLeg, WellEntered;
    if k == 0 {
      InitialIsResumable(userInput);
      AnalyzerIsFirst();
      LegVisits(ContextAnalyzer, InitialState(userInput), oracle, limit, i);
    } else {
      SessionIsResumable(userInput, oracle, limit, rs, legs, k - 1);
      var pending, st, r := legs[k - 1].pending, legs[k - 1].st, rs[k - 1];
      assert legs[(k - 1) + 1] == Resume(pending, st, r.userAnswer, r.oracle, r.limit);
      AnswerKeepsResumable(pending, st, r.userAnswer);
      LegVisits(pending.value, st.(userAnswer := Some(r.userAnswer)), r.oracle, r.limit, i);
    }
  }

  lemma LegVisits(node: Node, st: State, oracle: nat -> Answers, limit: nat, i: nat)
    requires Resumable(Some(node), st) && i < |Leg(Compiled(), node, st, oracle, 0, limit).visits|
    ensures var v := Leg(Compiled(), node, st, oracle, 0, limit).visits[i];
            && (v.node == ToolNode ==> |OrEmpty(v.st.queries)| > 0)
            && (v.node == FinalSynthesizer ==> !WantsRewrite(v.st))
            && v.st.finalAnswer == None && 0 <= OrZero(v.st.rewriteCount) <= 2
            && (InLeg(false, v.node) ==> InLeg(false, node))
  {
    hide Leg, Compiled, InLeg, WellEntered, WantsRewrite;
    HalvesCover(node);
    VisitsAreSound(InLeg(true, node), node, st, oracle, 0, limit, i);
    var v := Leg(Compiled(), node, st, oracle, 0, limit).visits[i];
    HalvesCover(v.node);
    VisitClauses(v);
  }

  /** A finished leg's answer is the last node's. */
  lemma {:induction false} AnswerIsLastNodes(node: Node, st: State, oracle: nat -> Answers, step: nat, limit: nat)
    requires Leg(Compiled(), node, st, oracle, step, limit).status == Finished
    ensures var o := Leg(Compiled(), node, st, oracle, step, limit);
            && o.visits != [] && o.visits[|o.visits| - 1].node == FinalSynthesizer
            && o.st.finalAnswer == Some(oracle(o.visits[|o.visits| - 1].step).final)
    decreases limit
  {
    hide Compiled, Follow, Delta, Leg;
    LegZero(node, st, oracle, step);
    LegStep(node, st, oracle, step, limit);
    var st1 := Delta(node, st, oracle(step));
    FollowCompiled(node, st1);
    if Follow(Compiled(), node, st1).Go? {
      AnswerIsLastNodes(Follow(Compiled(), node, st1).node, st1, oracle, step + 1, limit - 1);
    } else {
      DeltaCarries(node, st, oracle(step));
    }
  }

  // ---- Facts ----

  /** What the tool node found over a leg: pass after pass, each in the order of its queries. */
  function Found(visits: seq<Visit>, oracle: nat -> Answers): seq<string> {
    if visits == [] then []
    else (if visits[0].node == ToolNode then NewFacts(visits[0].st, oracle(visits[0].step)) else [])
         + Found(visits[1..], oracle)
  }

  lemma FoundCons(v: Visit, vs: seq<Visit>, oracle: nat -> Answers)
    ensures Found([v] + vs, oracle)
            == (if v.node == ToolNode then NewFacts(v.st, oracle(v.step)) else []) + Found(vs, oracle)
  {
    assert ([v] + vs)[1..] == vs;
  }

  lemma DeltaFacts(node: Node, st: State, a: Answers)
    ensures OrEmpty(Delta(node, st, a).toolFacts)
            == OrEmpty(st.toolFacts) + if node == ToolNode then NewFacts(st, a) else []
  {
    hide NewFacts;
  }

  /** The facts after a leg are those before it, followed by every pass's results in query order. */
  lemma {:induction false} FactsAccumulate(node: Node, st: State, oracle: nat -> Answers, step: nat, limit: nat)
    ensures var o := Leg(Compiled(), node, st, oracle, step, limit);
            o.status == Paused || o.status == Finished ==>
              OrEmpty(o.st.toolFacts) == OrEmpty(st.toolFacts) + Found(o.visits, oracle)
    decreases limit
  {
    hide Compiled, Follow, Delta, Leg, NewFacts, Found;
    LegZero(node, st, oracle, step);
    if limit > 0 {
      LegStep(node, st, oracle, step, limit);
      var st1, v := Delta(node, st, oracle(step)), Visit(node, st, step);
      DeltaFacts(node, st, oracle(step));
      var rest := if Follow(Compiled(), node, st1).Go?
                  then Leg(Compiled(), Follow(Compiled(), node, st1).node, st1, oracle, step + 1,
                      limit - 1).visits else [];
      FoundCons(v, rest, oracle);
      FoundNothing(oracle);
      assert [v] + [] == [v];
      if Follow(Compiled(), node, st1).Go? {
        FactsAccumulate(Follow(Compiled(), node, st1).node, st1, oracle, step + 1, limit - 1);
        Regroup(OrEmpty(st.toolFacts), if node == ToolNode then NewFacts(st, oracle(step))
            else [], Found(rest, oracle));
      }
    }
  }

  lemma FoundNothing(oracle: nat -> Answers)
    ensures Found([], oracle) == []
  {}

  lemma Regroup(a: seq<string>, b: seq<string>, c: seq<string>)
    ensures a + b + c == a + (b + c) && a + (b + []) == a + b
  {
    assert b + [] == b;
  }

  lemma {:induction false} FoundNone(visits: seq<Visit>, oracle: nat -> Answers)
    requires forall i :: 0 <= i < |visits| ==> visits[i].node != ToolNode
    ensures Found(visits, oracle) == []
  {
    hide NewFacts;
    if visits != [] {
      forall i | 0 <= i < |visits[1..]|
          ensures visits[1..][i].node != ToolNode { assert visits[1..][i] == visits[i + 1]; }
      FoundNone(visits[1..], oracle);
    }
  }

  lemma {:induction false} PausePending(node: Node, st: State, oracle: nat -> Answers, step: nat, limit: nat)
    ensures var o := Leg(Compiled(), node, st, oracle, step, limit);
            o.status == Paused ==> o.pending == Some(WeightParser)
    decreases limit
  {
    hide Compiled, Follow, Delta, Leg, WantsRewrite;
    LegZero(node, st, oracle, step);
    if limit > 0 {
      LegStep(node, st, oracle, step, limit);
      var st1 := Delta(node, st, oracle(step));
      FollowCompiled(node, st1);
      if Follow(Compiled(), node, st1).Go? {
        PausePending(Follow(Compiled(), node, st1).node, st1, oracle, step + 1, limit - 1);
      }
    }
  }

  /** A whole session: the trace is (1 2)* 1 3, the pause, 3.5 (4 5)+ 6; the facts are what the first leg's passes
      found, in order; the answer is the last node's. */
  lemma WholeSession(userInput: string, userAnswer: string, oracle1: nat -> Answers, limit1: nat,
                     oracle2: nat -> Answers, limit2: nat)
    requires Start(userInput, oracle1, limit1).status == Paused
    requires Resume(Some(WeightParser), Start(userInput, oracle1, limit1).st, userAnswer, oracle2, limit2).status
             == Finished
    ensures var o1 := Start(userInput, oracle1, limit1);
            var o2 := Resume(o1.pending, o1.st, userAnswer, oracle2, limit2);
            && o1.pending == Some(WeightParser)
            && StartShape(Nodes(o1.visits)) && ResumeShape(Nodes(o2.visits))
            && OrEmpty(o2.st.toolFacts) == Found(o1.visits, oracle1)
            && o2.visits != [] && o2.st.finalAnswer == Some(oracle2(o2.visits[|o2.visits| - 1].step).final)
  {
    hide Compiled, Leg, Found, StartShape, DraftShape, Nodes;
    var o1 := Start(userInput, oracle1, limit1);
    var st0 := o1.st.(userAnswer := Some(userAnswer));
    PausePending(ContextAnalyzer, InitialState(userInput), oracle1, 0, limit1);
    var o2 := Resume(Some(WeightParser), o1.st, userAnswer, oracle2, limit2);
    StartTrace(userInput, oracle1, limit1);
    ResumeTrace(Some(WeightParser), o1.st, userAnswer, oracle2, limit2);
    FactsAccumulate(ContextAnalyzer, InitialState(userInput), oracle1, 0, limit1);
    FactsAccumulate(WeightParser, st0, oracle2, 0, limit2);
    forall i | 0 <= i < |o2.visits| ensures o2.visits[i].node != ToolNode {
      VisitsAreSound(false, WeightParser, st0, oracle2, 0, limit2, i);
    }
    FoundNone(o2.visits, oracle2);
    AnswerIsLastNodes(WeightParser, st0, oracle2, 0, limit2);
    assert [] + Found(o1.visits, oracle1) == Found(o1.visits, oracle1);
    assert Found(o1.visits, oracle1) + [] == Found(o1.visits, oracle1);
  }

  // ---- How long the critique loop runs ----

  function Drafts(visits: seq<Visit>): nat {
    if visits == [] then 0 else Drafts(visits[1..]) + if visits[0].node == DraftGenerator then 1 else 0
  }

  lemma DraftsCons(v: Visit, vs: seq<Visit>)
    ensures Drafts([v] + vs) == Drafts(vs) + if v.node == DraftGenerator then 1 else 0
  {
    assert ([v] + vs)[1..] == vs;
  }

  /** Whoever gives feedback also asks for a rewrite. */
  ghost predicate Consistent(oracle: nat -> Answers) {
    forall k: nat :: oracle(k).feedback != "" ==> oracle(k).needsRewrite
  }

  ghost predicate NeverFails(oracle: nat -> Answers) {
    forall k: nat :: !oracle(k).fails
  }

  /** How many drafts a count of rewrites leaves room for. */
  function Room(count: int): nat {
    if count < 1 then 2 else 1
  }

  lemma CritiqueTakesRoom(st: State, a: Answers)
    requires (a.feedback != "" ==> a.needsRewrite) && 0 <= OrZero(st.rewriteCount)
    ensures var st1 := Critiqued(st, a);
            && 0 <= OrZero(st1.rewriteCount)
            && (WantsRewrite(st1) ==> Room(OrZero(st.rewriteCount)) == 2 && Room(OrZero(st1.rewriteCount)) == 1)
  {}

  /** From a draft on, a consistent critic allows at most two drafts, and one if a rewrite was already made;
      if nothing fails and the limit is not in the way, the leg ends. */
  lemma {:induction false} DraftsAreFew(st: State, oracle: nat -> Answers, step: nat, limit: nat)
    requires Consistent(oracle) && 0 <= OrZero(st.rewriteCount)
    ensures var o := Leg(Compiled(), DraftGenerator, st, oracle, step, limit);
            && Drafts(o.visits) <= Room(OrZero(st.rewriteCount))
            && (NeverFails(oracle) && limit > 2 * Room(OrZero(st.rewriteCount)) ==> o.status == Finished)
    decreases limit
  {
    hide Compiled, Follow, Leg, WantsRewrite, Room, Critiqued, Drafts;
    LegZero(DraftGenerator, st, oracle, step);
    RoomBounds(OrZero(st.rewriteCount));
    NoDrafts();
    if limit > 0 {
      LegStep(DraftGenerator, st, oracle, step, limit);
      var st1, v1 := Delta(DraftGenerator, st, oracle(step)), Visit(DraftGenerator, st, step);
      FollowCompiled(DraftGenerator, st1);
      var o1 := Leg(Compiled(), CoveCritique, st1, oracle, step + 1, limit - 1);
      DraftsCons(v1, o1.visits);
      DraftsCons(v1, []);
      assert [v1] + [] == [v1];
      CritiqueIsShort(st1, oracle, step + 1, limit - 1);
    }
  }

  lemma NoDrafts()
    ensures Drafts([]) == 0
  {}

  lemma RoomBounds(count: int)
    ensures 1 <= Room(count) <= 2
  {}

  lemma {:induction false} CritiqueIsShort(st: State, oracle: nat -> Answers, step: nat, limit: nat)
    requires Consistent(oracle) && 0 <= OrZero(st.rewriteCount)
    ensures var o := Leg(Compiled(), CoveCritique, st, oracle, step, limit);
            && Drafts(o.visits) <= Room(OrZero(st.rewriteCount)) - 1
            && (NeverFails(oracle) && limit >= 2 * Room(OrZero(st.rewriteCount)) ==> o.status == Finished)
    decreases limit
  {
    hide Compiled, Follow, Leg, WantsRewrite, Room, Critiqued, Drafts;
    LegZero(CoveCritique, st, oracle, step);
    RoomBounds(OrZero(st.rewriteCount));
    NoDrafts();
    if limit > 0 {
      LegStep(CoveCritique, st, oracle, step, limit);
      var st1, v := Delta(CoveCritique, st, oracle(step)), Visit(CoveCritique, st, step);
      FollowCompiled(CoveCritique, st1);
      CritiqueTakesRoom(st, oracle(step));
      var n := if WantsRewrite(st1) then DraftGenerator else FinalSynthesizer;
      DraftsCons(v, Leg(Compiled(), n, st1, oracle, step + 1, limit - 1).visits);
      DraftsCons(v, []);
      assert [v] + [] == [v];
      if WantsRewrite(st1) {
        DraftsAreFew(st1, oracle, step + 1, limit - 1);
      } else {
        FinalIsLast(st1, oracle, step + 1, limit - 1);
      }
    }
  }

  lemma FinalIsLast(st: State, oracle: nat -> Answers, step: nat, limit: nat)
    ensures var o := Leg(Compiled(), FinalSynthesizer, st, oracle, step, limit);
            Drafts(o.visits) == 0 && (NeverFails(oracle) && limit > 0 ==> o.status == Finished)
  {
    hide Compiled, Follow, Leg, Delta, Drafts;
    LegZero(FinalSynthesizer, st, oracle, step);
    NoDrafts();
    if limit > 0 {
      LegStep(FinalSynthesizer, st, oracle, step, limit);
      FollowCompiled(FinalSynthesizer, Delta(FinalSynthesizer, st, oracle(step)));
      var v := Visit(FinalSynthesizer, st, step);
      DraftsCons(v, []);
      assert [v] + [] == [v];
    }
  }

  /** The critique loop ends: when every critique with feedback asks for a rewrite, a leg behind the pause, from
      whatever node it goes on, makes at most two drafts, and reaches the end within six steps unless something
      fails. */
  lemma ResumeEnds(pending: Node, st: State, userAnswer: string, oracle: nat -> Answers, limit: nat)
    requires Consistent(oracle) && 0 <= OrZero(st.rewriteCount) && InLeg(false, pending)
    ensures var o := Resume(Some(pending), st, userAnswer, oracle, limit);
            && Drafts(o.visits) <= 2
            && (NeverFails(oracle) && limit >= 6 ==> o.status == Finished)
  {
    hide Compiled, Leg, Room, Drafts;
    var st0 := st.(userAnswer := Some(userAnswer));
    RoomBounds(OrZero(st.rewriteCount));
    match pending
    case WeightParser => ParserEnds(st0, oracle, limit);
    case DraftGenerator => DraftsAreFew(st0, oracle, 0, limit);
    case CoveCritique => CritiqueIsShort(st0, oracle, 0, limit);
    case FinalSynthesizer => FinalIsLast(st0, oracle, 0, limit);
  }

  lemma ParserEnds(st0: State, oracle: nat -> Answers, limit: nat)
    requires Consistent(oracle) && 0 <= OrZero(st0.rewriteCount)
    ensures var o := Leg(Compiled(), WeightParser, st0, oracle, 0, limit);
            && Drafts(o.visits) <= 2
            && (NeverFails(oracle) && limit >= 6 ==> o.status == Finished)
  {
    hide Compiled, Follow, Leg, Room, Drafts, Delta;
    LegZero(WeightParser, st0, oracle, 0);
    NoDrafts();
    if limit > 0 {
      LegStep(WeightParser, st0, oracle, 0, limit);
      var st1, v := Delta(WeightParser, st0, oracle(0)), Visit(WeightParser, st0, 0);
      FollowCompiled(WeightParser, st1);
      WeighedKeepsCount(st0, oracle(0));
      RoomBounds(OrZero(st1.rewriteCount));
      DraftsCons(v, Leg(Compiled(), DraftGenerator, st1, oracle, 1, limit - 1).visits);
      DraftsCons(v, []);
      assert [v] + [] == [v];
      DraftsAreFew(st1, oracle, 1, limit - 1);
    }
  }

  lemma WeighedKeepsCount(st: State, a: Answers)
    ensures Delta(WeightParser, st, a).rewriteCount == st.rewriteCount
  {}

  /** One draft and its critique. */
  function Audited(st: State, oracle: nat -> Answers, step: nat): State {
    Critiqued(Delta(DraftGenerator, st, oracle(step)), oracle(step + 1))
  }

  lemma DraftRound(st: State, oracle: nat -> Answers, step: nat, limit: nat)
    requires !oracle(step).fails && !oracle(step + 1).fails && limit >= 2
    ensures var st2 := Audited(st, oracle, step);
            var o := Leg(Compiled(), DraftGenerator, st, oracle, step, limit);
            if WantsRewrite(st2) then
              var rest := Leg(Compiled(), DraftGenerator, st2, oracle, step + 2, limit - 2);
              Drafts(o.visits) == 1 + Drafts(rest.visits) && o.status == rest.status
            else
              Drafts(o.visits) == 1
              && o.status == Leg(Compiled(), FinalSynthesizer, st2, oracle, step + 2, limit - 2).status
  {
    hide Compiled, Follow, Leg, WantsRewrite, Critiqued, Drafts;
    LegStep(DraftGenerator, st, oracle, step, limit);
    var st1, v1 := Delta(DraftGenerator, st, oracle(step)), Visit(DraftGenerator, st, step);
    FollowCompiled(DraftGenerator, st1);
    LegStep(CoveCritique, st1, oracle, step + 1, limit - 1);
    var st2, v2 := Delta(CoveCritique, st1, oracle(step + 1)), Visit(CoveCritique, st1, step + 1);
    FollowCompiled(CoveCritique, st2);
    var next := if WantsRewrite(st2) then DraftGenerator else FinalSynthesizer;
    var rest := Leg(Compiled(), next, st2, oracle, step + 2, limit - 2).visits;
    DraftsCons(v1, [v2] + rest);
    DraftsCons(v2, rest);
    FinalIsLast(st2, oracle, step + 2, limit - 2);
  }

  /** A round that does not get to the router is the last one. */
  lemma CutRound(st: State, oracle: nat -> Answers, step: nat, limit: nat)
    requires limit < 2 || oracle(step).fails || oracle(step + 1).fails
    ensures Drafts(Leg(Compiled(), DraftGenerator, st, oracle, step, limit).visits) <= 1
  {
    hide Compiled, Follow, Leg, Delta, Drafts;
    LegZero(DraftGenerator, st, oracle, step);
    NoDrafts();
    if limit > 0 {
      LegStep(DraftGenerator, st, oracle, step, limit);
      var st1, v1 := Delta(DraftGenerator, st, oracle(step)), Visit(DraftGenerator, st, step);
      FollowCompiled(DraftGenerator, st1);
      LegZero(CoveCritique, st1, oracle, step + 1);
      var v2 := Visit(CoveCritique, st1, step + 1);
      DraftsCons(v1, []);
      DraftsCons(v1, [v2]);
      DraftsCons(v2, []);
      assert [v1] + [] == [v1] && [v2] + [] == [v2];
      if limit > 1 && !oracle(step).fails { LegStep(CoveCritique, st1, oracle, step + 1, limit - 1); }
    }
  }

  lemma SomeDraft(st: State, oracle: nat -> Answers, step: nat, limit: nat)
    requires limit > 0
    ensures Drafts(Leg(Compiled(), DraftGenerator, st, oracle, step, limit).visits) >= 1
  {
    hide Compiled, Follow, Leg, Delta, Drafts;
    LegStep(DraftGenerator, st, oracle, step, limit);
    var st1, v := Delta(DraftGenerator, st, oracle(step)), Visit(DraftGenerator, st, step);
    NoDrafts();
    DraftsCons(v, []);
    assert [v] + [] == [v];
    FollowCompiled(DraftGenerator, st1);
    DraftsCons(v, Leg(Compiled(), CoveCritique, st1, oracle, step + 1, limit - 1).visits);
  }

  lemma AuditEffect(st: State, oracle: nat -> Answers, step: nat)
    ensures var st2, count := Audited(st, oracle, step), OrZero(st.rewriteCount);
            && OrZero(st2.rewriteCount) == count + (if oracle(step + 1).needsRewrite && count < 2 then 1 else 0)
            && (WantsRewrite(st2) <==> oracle(step + 1).feedback != "" && OrZero(st2.rewriteCount) < 2)
  {}

  /** The first n drafts from a step on and their critiques all go through. */
  predicate RoundsRun(oracle: nat -> Answers, step: nat, n: nat)
    decreases n
  {
    n == 0 || (!oracle(step).fails && !oracle(step + 1).fails && RoundsRun(oracle, step + 2, n - 1))
  }

  /** The first n critiques all give feedback. */
  predicate Nags(oracle: nat -> Answers, step: nat, n: nat)
    decreases n
  {
    n == 0 || (oracle(step + 1).feedback != "" && Nags(oracle, step + 2, n - 1))
  }

  /** How many of them ask for a rewrite. */
  function Wishes(oracle: nat -> Answers, step: nat, n: nat): nat
    decreases n
  {
    if n == 0 then 0 else (if oracle(step + 1).needsRewrite then 1 else 0) + Wishes(oracle, step + 2, n - 1)
  }

  /** What the critics have to say for n rewrites: feedback n times, and too few wishes to use up the count. */
  predicate SendsBack(oracle: nat -> Answers, step: nat, count: int, n: nat) {
    Nags(oracle, step, n) && (n > 0 ==> count + Wishes(oracle, step, n) < 2)
  }

  lemma Rounds(oracle: nat -> Answers, step: nat, n: nat)
    requires n > 0
    ensures Nags(oracle, step, n) <==> oracle(step + 1).feedback != "" && Nags(oracle, step + 2, n - 1)
    ensures Wishes(oracle, step, n)
            == (if oracle(step + 1).needsRewrite then 1 else 0) + Wishes(oracle, step + 2, n - 1)
    ensures Nags(oracle, step + 2, 0) && Wishes(oracle, step + 2, 0) == 0
  {}

  /** One round fewer, from the state the first one leaves. */
  lemma SendsBackOnce(st: State, oracle: nat -> Answers, step: nat, n: nat)
    requires n > 0
    ensures var st2 := Audited(st, oracle, step);
            SendsBack(oracle, step, OrZero(st.rewriteCount), n)
            <==> WantsRewrite(st2) && SendsBack(oracle, step + 2, OrZero(st2.rewriteCount), n - 1)
  {
    hide Audited, WantsRewrite, Nags, Wishes;
    AuditEffect(st, oracle, step);
    Rounds(oracle, step, n);
  }

  /** For every n: from a draft on, more than n drafts are begun exactly when n rounds run through, the limit leaves
      room for another, every one of the n critiques gives feedback, and the wishes among them leave the count of
      rewrites below two. */
  lemma {:induction false} DraftsExactly(st: State, oracle: nat -> Answers, step: nat, limit: nat, n: nat)
    ensures Drafts(Leg(Compiled(), DraftGenerator, st, oracle, step, limit).visits) > n
            <==> limit > 2 * n && RoundsRun(oracle, step, n) && SendsBack(oracle, step, OrZero(st.rewriteCount), n)
    decreases n
  {
    hide Compiled, Leg, Drafts, Audited, WantsRewrite, SendsBack;
    if n == 0 {
      SendsBackNever(oracle, step, OrZero(st.rewriteCount));
      LegZero(DraftGenerator, st, oracle, step);
      NoDrafts();
      if limit > 0 { SomeDraft(st, oracle, step, limit); }
    } else if limit < 2 || oracle(step).fails || oracle(step + 1).fails {
      CutRound(st, oracle, step, limit);
    } else {
      DraftRound(st, oracle, step, limit);
      SendsBackOnce(st, oracle, step, n);
      var st2 := Audited(st, oracle, step);
      if WantsRewrite(st2) { DraftsExactly(st2, oracle, step + 2, limit - 2, n - 1); }
    }
  }

  lemma SendsBackNever(oracle: nat -> Answers, step: nat, count: int)
    ensures SendsBack(oracle, step, count, 0)
  {}

  /** The same for a leg resumed behind the pause. */
  lemma ResumedDraftsExactly(st: State, userAnswer: string, oracle: nat -> Answers, limit: nat, n: nat)
    ensures Drafts(Resume(Some(WeightParser), st, userAnswer, oracle, limit).visits) > n
            <==> (limit > 2 * n + 1 && !oracle(0).fails && RoundsRun(oracle, 1, n)
                  && SendsBack(oracle, 1, OrZero(st.rewriteCount), n))
  {
    hide Compiled, Follow, Leg, Drafts, Delta, SendsBack, RoundsRun;
    var st0 := st.(userAnswer := Some(userAnswer));
    var st1, v := Delta(WeightParser, st0, oracle(0)), Visit(WeightParser, st0, 0);
    LegZero(WeightParser, st0, oracle, 0);
    NoDrafts();
    DraftsCons(v, []);
    assert [v] + [] == [v];
    if limit > 0 {
      LegStep(WeightParser, st0, oracle, 0, limit);
      FollowCompiled(WeightParser, st1);
      WeighedKeepsCount(st0, oracle(0));
      DraftsCons(v, Leg(Compiled(), DraftGenerator, st1, oracle, 1, limit - 1).visits);
      DraftsExactly(st1, oracle, 1, limit - 1, n);
    }
  }

  lemma NothingFails(oracle: nat -> Answers, step: nat, n: nat)
    requires NeverFails(oracle)
    ensures RoundsRun(oracle, step, n)
    decreases n
  {
    if n > 0 { NothingFails(oracle, step + 2, n - 1); }
  }

  /** The cap of two rewrites is broken, by a fourth draft, exactly when the first three critiques all give feedback
      and at most one of them asks for a rewrite. */
  lemma CapBrokenExactly(st: State, userAnswer: string, oracle: nat -> Answers, limit: nat)
    requires NeverFails(oracle) && (st.rewriteCount.None? || st.rewriteCount == Some(0)) && limit >= 8
    ensures Drafts(Resume(Some(WeightParser), st, userAnswer, oracle, limit).visits) > 3
            <==> (oracle(2).feedback != "" && oracle(4).feedback != "" && oracle(6).feedback != ""
                  && !(oracle(2).needsRewrite && oracle(4).needsRewrite)
                  && !(oracle(2).needsRewrite && oracle(6).needsRewrite)
                  && !(oracle(4).needsRewrite && oracle(6).needsRewrite))
  {
    hide Compiled, Leg, Drafts, Resume, RoundsRun;
    NothingFails(oracle, 1, 3);
    ResumedDraftsExactly(st, userAnswer, oracle, limit, 3);
    Rounds(oracle, 1, 3);
    Rounds(oracle, 3, 2);
    Rounds(oracle, 5, 1);
  }

  /** The same for whole sessions: whatever the first leg does, the second starts with no rewrite counted. */
  lemma SessionDraftsExactly(userInput: string, oracle1: nat -> Answers, limit1: nat, o: Outcome, userAnswer: string,
                             oracle: nat -> Answers, limit: nat, n: nat)
    requires o == Start(userInput, oracle1, limit1) && o.status == Paused
    ensures Drafts(Resume(o.pending, o.st, userAnswer, oracle, limit).visits) > n
            <==> (limit > 2 * n + 1 && !oracle(0).fails && RoundsRun(oracle, 1, n)
                  && Nags(oracle, 1, n) && (n > 0 ==> Wishes(oracle, 1, n) < 2))
  {
    hide Leg, Compiled, Drafts, Resume, Start, RoundsRun, Nags, Wishes;
    PausedCount(userInput, oracle1, limit1);
    ResumedDraftsExactly(o.st, userAnswer, oracle, limit, n);
  }

  lemma PausedCount(userInput: string, oracle: nat -> Answers, limit: nat)
    requires Start(userInput, oracle, limit).status == Paused
    ensures var o := Start(userInput, oracle, limit); o.pending == Some(WeightParser) && OrZero(o.st.rewriteCount) == 0
  {
    hide Leg, Compiled;
    PausePending(ContextAnalyzer, InitialState(userInput), oracle, 0, limit);
    PausedKeepsCount(ContextAnalyzer, InitialState(userInput), oracle, 0, limit);
  }

  lemma {:induction false} PausedKeepsCount(node: Node, st: State, oracle: nat -> Answers, step: nat, limit: nat)
    requires InLeg(true, node)
    ensures Leg(Compiled(), node, st, oracle, step, limit).st.rewriteCount == st.rewriteCount
    decreases limit
  {
    hide Compiled, Follow, Leg, NewFacts;
    LegZero(node, st, oracle, step);
    if limit > 0 {
      LegStep(node, st, oracle, step, limit);
      var st1 := Delta(node, st, oracle(step));
      FollowCompiled(node, st1);
      if Follow(Compiled(), node, st1).Go? {
        PausedKeepsCount(Follow(Compiled(), node, st1).node, st1, oracle, step + 1, limit - 1);
      }
    }
  }

  /** A second rewrite, by a third draft, is made exactly when the first two critiques both give feedback and do not
      both ask for it. */
  lemma ThirdDraftExactly(st: State, userAnswer: string, oracle: nat -> Answers, limit: nat)
    requires NeverFails(oracle) && (st.rewriteCount.None? || st.rewriteCount == Some(0)) && limit >= 6
    ensures Drafts(Resume(Some(WeightParser), st, userAnswer, oracle, limit).visits) > 2
            <==> (oracle(2).feedback != "" && oracle(4).feedback != ""
                  && !(oracle(2).needsRewrite && oracle(4).needsRewrite))
  {
    hide Compiled, Leg, Drafts, Resume, RoundsRun;
    NothingFails(oracle, 1, 2);
    ResumedDraftsExactly(st, userAnswer, oracle, limit, 2);
    Rounds(oracle, 1, 2);
    Rounds(oracle, 3, 1);
  }

  /** From a draft on, when nothing fails, a leg runs into its limit exactly when the critics send back as many drafts
      as the limit has room for, and ends otherwise. */
  lemma {:induction false} DraftLimitExactly(st: State, oracle: nat -> Answers, step: nat, limit: nat)
    requires NeverFails(oracle) && limit > 0
    ensures Leg(Compiled(), DraftGenerator, st, oracle, step, limit).status
            == if SendsBack(oracle, step, OrZero(st.rewriteCount), (limit - 1) / 2) then LimitReached else Finished
    decreases limit
  {
    hide Compiled, Follow, Leg, Delta, Audited, WantsRewrite, SendsBack, Drafts;
    SendsBackNever(oracle, step, OrZero(st.rewriteCount));
    if limit == 1 {
      LegStep(DraftGenerator, st, oracle, step, limit);
      var st1 := Delta(DraftGenerator, st, oracle(step));
      FollowCompiled(DraftGenerator, st1);
      LegZero(CoveCritique, st1, oracle, step + 1);
    } else {
      DraftRound(st, oracle, step, limit);
      var st2 := Audited(st, oracle, step);
      if limit == 2 {
        LegZero(DraftGenerator, st2, oracle, step + 2);
        LegZero(FinalSynthesizer, st2, oracle, step + 2);
      } else {
        assert (limit - 2 - 1) / 2 == (limit - 1) / 2 - 1;
        SendsBackOnce(st, oracle, step, (limit - 1) / 2);
        if WantsRewrite(st2) {
          DraftLimitExactly(st2, oracle, step + 2, limit - 2);
        } else {
          FinalIsLast(st2, oracle, step + 2, limit - 2);
        }
      }
    }
  }

  /** The critique loop ends, given enough steps, exactly when some number of drafts is not sent back: it cycles for
      ever exactly when every critique gives feedback and fewer than two, with the rewrites counted before, ever ask
      for one. */
  lemma LoopEndsExactly(st: State, userAnswer: string, oracle: nat -> Answers)
    requires NeverFails(oracle)
    ensures (exists limit: nat :: Resume(Some(WeightParser), st, userAnswer, oracle, limit).status == Finished)
            <==> (exists n: nat :: !SendsBack(oracle, 1, OrZero(st.rewriteCount), n))
  {
    hide Resume, SendsBack, NeverFails;
    if limit: nat :| Resume(Some(WeightParser), st, userAnswer, oracle, limit).status == Finished {
      ResumedLimit(st, userAnswer, oracle, limit);
      assert !SendsBack(oracle, 1, OrZero(st.rewriteCount), (limit - 2) / 2);
    }
    if n: nat :| !SendsBack(oracle, 1, OrZero(st.rewriteCount), n) {
      ResumedLimit(st, userAnswer, oracle, 2 * n + 2);
      assert Resume(Some(WeightParser), st, userAnswer, oracle, 2 * n + 2).status == Finished;
    }
  }

  lemma ResumedLimit(st: State, userAnswer: string, oracle: nat -> Answers, limit: nat)
    requires NeverFails(oracle)
    ensures Resume(Some(WeightParser), st, userAnswer, oracle, limit).status
            == if limit < 2 || SendsBack(oracle, 1, OrZero(st.rewriteCount), (limit - 2) / 2) then LimitReached
               else Finished
  {
    hide Compiled, Follow, Leg, Delta, SendsBack;
    var st0 := st.(userAnswer := Some(userAnswer));
    var st1 := Delta(WeightParser, st0, oracle(0));
    LegZero(WeightParser, st0, oracle, 0);
    LegZero(DraftGenerator, st1, oracle, 1);
    if limit > 0 {
      LegStep(WeightParser, st0, oracle, 0, limit);
      FollowCompiled(WeightParser, st1);
      WeighedKeepsCount(st0, oracle(0));
      if limit > 1 { DraftLimitExactly(st1, oracle, 1, limit - 1); }
    }
  }

  // ---- Without that hypothesis the loop has no bound ----

  /** A critic that gives feedback for the first n critiques without ever asking for a rewrite: the router
      reads the feedback, the counter the wish. */
  function Nagging(n: nat): nat -> Answers {
    step => Answers(false, "", false, Some([]), _ => [], "", map[], "", "", false, if step < 2 * n then "again"
        else "", "")
  }

  lemma {:induction false} NaggedDrafts(st: State, n: nat, step: nat, limit: nat)
    requires OrZero(st.rewriteCount) == 0 && step % 2 == 1 && step < 2 * n
    requires limit > 2 * n + 1 - step
    ensures var o := Leg(Compiled(), DraftGenerator, st, Nagging(n), step, limit);
            o.status == Finished && Drafts(o.visits) == (2 * n + 1 - step) / 2
    decreases limit
  {
    hide Compiled, Follow, Leg, Drafts, Delta, WantsRewrite, Nagging;
    var oracle := Nagging(n);
    LegStep(DraftGenerator, st, oracle, step, limit);
    var st1, v1 := Delta(DraftGenerator, st, oracle(step)), Visit(DraftGenerator, st, step);
    FollowCompiled(DraftGenerator, st1);
    LegStep(CoveCritique, st1, oracle, step + 1, limit - 1);
    var st2, v2 := Delta(CoveCritique, st1, oracle(step + 1)), Visit(CoveCritique, st1, step + 1);
    FollowCompiled(CoveCritique, st2);
    NagEffect(st, n, step);
    NagNever(n);
    var next := if WantsRewrite(st2) then DraftGenerator else FinalSynthesizer;
    var rest := Leg(Compiled(), next, st2, oracle, step + 2, limit - 2).visits;
    DraftsCons(v1, [v2] + rest);
    DraftsCons(v2, rest);
    if WantsRewrite(st2) {
      NaggedDrafts(st2, n, step + 2, limit - 2);
    } else {
      FinalIsLast(st2, oracle, step + 2, limit - 2);
    }
  }

  lemma NagNever(n: nat)
    ensures NeverFails(Nagging(n))
  {}

  lemma NagEffect(st: State, n: nat, step: nat)
    requires OrZero(st.rewriteCount) == 0
    ensures var oracle := Nagging(n);
            var st1 := Delta(DraftGenerator, st, oracle(step));
            var st2 := Delta(CoveCritique, st1, oracle(step + 1));
            && OrZero(st2.rewriteCount) == 0 && (WantsRewrite(st2) <==> step + 1 < 2 * n)
            && !oracle(step).fails && !oracle(step + 1).fails
  {
    assert "again" != "" by { assert |"again"| == 5; }
  }

  /** For every n > 0 there is a critic with which a second leg makes exactly n drafts, as far as the step limit
      lets it: the rewrite count alone does not bound the loop. */
  lemma DraftsUnbounded(st: State, userAnswer: string, n: nat, limit: nat)
    requires n > 0 && OrZero(st.rewriteCount) == 0 && limit > 2 * n + 1
    ensures var o := Resume(Some(WeightParser), st, userAnswer, Nagging(n), limit);
            o.status == Finished && Drafts(o.visits) == n
  {
    hide Compiled, Follow, Leg, Drafts, Delta, Nagging;
    var st0, oracle := st.(userAnswer := Some(userAnswer)), Nagging(n);
    NagNever(n);
    LegStep(WeightParser, st0, oracle, 0, limit);
    var st1, v := Delta(WeightParser, st0, oracle(0)), Visit(WeightParser, st0, 0);
    FollowCompiled(WeightParser, st1);
    WeighedKeepsCount(st0, oracle(0));
    NaggedDrafts(st1, n, 1, limit - 1);
    DraftsCons(v, Leg(Compiled(), DraftGenerator, st1, oracle, 1, limit - 1).visits);
  }

  // ---- The limit only cuts off ----

  /** A leg that comes to an end within a limit does the same under any greater one. */
  lemma {:induction false} LimitOnlyCuts(node: Node, st: State, oracle: nat -> Answers, step: nat, limit: nat,
                                more: nat)
    requires limit <= more && Leg(Compiled(), node, st, oracle, step, limit).status != LimitReached
    ensures Leg(Compiled(), node, st, oracle, step, more) == Leg(Compiled(), node, st, oracle, step, limit)
    decreases limit
  {
    hide Compiled, Follow, Delta, Leg;
    LegZero(node, st, oracle, step);
    LegStep(node, st, oracle, step, limit);
    LegStep(node, st, oracle, step, more);
    var st1 := Delta(node, st, oracle(step));
    if !oracle(step).fails && Follow(Compiled(), node, st1).Go? {
      LimitOnlyCuts(Follow(Compiled(), node, st1).node, st1, oracle, step + 1, limit - 1, more - 1);
    }
  }
}
