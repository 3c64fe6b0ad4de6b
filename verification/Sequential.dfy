/** One request at a time is one interleaving among others: the handlers of TurnApi as runs of the
    transition system; and two runs that show where the sweeper's guarantee ends. */
module Sequential {
  import opened PyText
  import opened CheckpointFactory
  import opened Idempotency
  import opened TurnApi
  import opened Interleavings
  import opened ServerConfig
  import M = Metrics
  import Sweeper

  // ---- Building runs ----

  ghost predicate Leads(l: Limits, s: Settings, w: World, es: seq<Event>, w1: World) {
    Possible(l, s, w, es) && Reach(l, s, w, es) == w1
  }

  ghost predicate CanReach(l: Limits, s: Settings, w: World, w1: World) {
    exists es :: Leads(l, s, w, es, w1)
  }

  lemma OneStep(l: Limits, s: Settings, w: World, e: Event)
    requires Enabled(l, w, e)
    ensures Leads(l, s, w, [e], Next(l, s, w, e))
  {
    hide Enabled, Next;
    assert [e][..0] == [];
    assert Possible(l, s, w, [e][..0]) && Reach(l, s, w, [e][..0]) == w;
  }

  lemma {:induction false} Chain(l: Limits, s: Settings, w: World, es: seq<Event>, w1: World, fs: seq<Event>, w2: World)
    requires Leads(l, s, w, es, w1) && Leads(l, s, w1, fs, w2)
    ensures Leads(l, s, w, es + fs, w2)
    decreases |fs|
  {
    hide Enabled, Next;
    if fs == [] {
      assert es + fs == es;
    } else {
      var front := fs[..|fs| - 1];
      Chain(l, s, w, es, w1, front, Reach(l, s, w1, front));
      assert (es + fs)[..|es + fs| - 1] == es + front;
    }
  }

  lemma StepReaches(l: Limits, s: Settings, w: World, e: Event)
    requires Enabled(l, w, e)
    ensures CanReach(l, s, w, Next(l, s, w, e))
  {
    hide Enabled, Next, Leads;
    OneStep(l, s, w, e);
  }

  lemma Then(l: Limits, s: Settings, w: World, w1: World, w2: World)
    requires CanReach(l, s, w, w1) && CanReach(l, s, w1, w2)
    ensures CanReach(l, s, w, w2)
  {
    hide Leads;
    var es :| Leads(l, s, w, es, w1);
    var fs :| Leads(l, s, w1, fs, w2);
    Chain(l, s, w, es, w1, fs, w2);
  }

  lemma ThenStep(l: Limits, s: Settings, w: World, w1: World, e: Event)
    requires CanReach(l, s, w, w1) && Enabled(l, w1, e)
    ensures CanReach(l, s, w, Next(l, s, w1, e))
  {
    hide Enabled, Next, CanReach;
    StepReaches(l, s, w1, e);
    Then(l, s, w, w1, Next(l, s, w1, e));
  }

  lemma Stays(l: Limits, s: Settings, w: World)
    ensures CanReach(l, s, w, w)
  {
    assert Leads(l, s, w, [], w);
  }

  // ---- One /turn ----

  /** The world with just one request under way. */
  function With(w: World, at: real, a: App, id: nat, ask: Ask): World {
    w.(clock := at, app := a, asks := map[id := ask])
  }

  function Alone(w: World, at: real, a: App): World {
    w.(clock := at, app := a, asks := map[])
  }

  /** The run can go on until its request is over and the shared state is a1. */
  ghost predicate EndsIn(l: Limits, s: Settings, from: World, w: World, a1: App) {
    exists at :: CanReach(l, s, from, Alone(w, at, a1))
  }

  lemma ThenEnds(l: Limits, s: Settings, from: World, w1: World, w: World, a1: App)
    requires CanReach(l, s, from, w1) && EndsIn(l, s, w1, w, a1)
    ensures EndsIn(l, s, from, w, a1)
  {
    hide CanReach, Alone;
    var at :| CanReach(l, s, w1, Alone(w, at, a1));
    Then(l, s, from, w1, Alone(w, at, a1));
  }

  lemma WaitAlone(l: Limits, s: Settings, w: World, at: real)
    requires w.asks == map[] && w.clock <= at
    ensures CanReach(l, s, w, Alone(w, at, w.app))
  {
    StepReaches(l, s, w, Wait(at));
  }

  lemma WaitWith(l: Limits, s: Settings, w: World, t: real, a: App, id: nat, ask: Ask, at: real)
    requires t <= at && OnTime(l, ask, at)
    ensures CanReach(l, s, With(w, t, a, id, ask), With(w, at, a, id, ask))
  {
    hide CanReach, OnTime;
    StepReaches(l, s, With(w, t, a, id, ask), Wait(at));
  }

  /** A read of the handler's is its inner read, with the touch at the same time. */
  lemma TouchIsRead(a: App, t: string, at: real)
    ensures Read(a, t, at) == a.(tables := Touched(a.tables, t, at))
  {
    hide Trunc;
  }

  lemma Arrives(l: Limits, s: Settings, w: World, at: real, a: App, id: nat, req: TurnRequest, uuid: string)
    requires req.sessionId.None? ==> FreshIn(Alone(w, at, a), uuid)
    ensures CanReach(l, s, Alone(w, at, a), With(w, at, a, id, match req.sessionId
                                                              case None => Ask(req, uuid, LookingUp(0), at)
                                                              case Some(t) => Ask(req, t, Routing, at)))
  {
    hide CanReach;
    StepReaches(l, s, Alone(w, at, a), Arrive(id, req, uuid));
  }

  /** The first read and touch of a request that names a session. */
  lemma FirstReadRuns(l: Limits, s: Settings, w: World, at: real, a: App, id: nat, req: TurnRequest, t: string)
    ensures var from, a1 := With(w, at, a, id, Ask(req, t, Routing, at)), Read(a, t, at);
            && (Latest(a.tables, t).Some? ==> CanReach(l, s, from, With(w, at, a1, id, Ask(req, t, Counting, at))))
            && (Latest(a.tables, t).None? ==> CanReach(l, s, from, Alone(w, at, a1)))
  {
    hide CanReach, Latest, Touched;
    TouchIsRead(a, t, at);
    hide Read;
    var w0 := With(w, at, a, id, Ask(req, t, Routing, at));
    StepReaches(l, s, w0, ReadFirst(id));
    var w1 := Next(l, s, w0, ReadFirst(id));
    ThenStep(l, s, w0, w1, TouchFirst(id));
    var w2 := Next(l, s, w1, TouchFirst(id));
    if Latest(a.tables, t).Some? {
      assert w2 == With(w, at, Read(a, t, at), id, Ask(req, t, Counting, at));
    } else {
      assert w2 == Alone(w, at, Read(a, t, at));
    }
  }

  lemma SecondReadRuns(l: Limits, s: Settings, w: World, at: real, a: App, id: nat, req: TurnRequest, t: string,
                       since: real)
    ensures CanReach(l, s, With(w, at, a, id, Ask(req, t, Counting, since)),
                     With(w, at, Read(a, t, at), id, Ask(req, t, LookingUp(MessageCount(a.tables, t)), at)))
  {
    hide CanReach, MessageCount, Touched;
    TouchIsRead(a, t, at);
    hide Read;
    var w0 := With(w, at, a, id, Ask(req, t, Counting, since));
    StepReaches(l, s, w0, ReadSecond(id));
    var w1 := Next(l, s, w0, ReadSecond(id));
    ThenStep(l, s, w0, w1, TouchSecond(id));
    assert Next(l, s, w1, TouchSecond(id))
        == With(w, at, Read(a, t, at), id, Ask(req, t, LookingUp(MessageCount(a.tables, t)), at));
  }

  /** The lookup, and from a miss the stream's start. */
  lemma LookUpRuns(l: Limits, s: Settings, w: World, at: real, a: App, id: nat, req: TurnRequest, t: string, n: nat,
                   since: real)
    ensures var from, key := With(w, at, a, id, Ask(req, t, LookingUp(n), since)), KeyOf(s, req, t, n);
            var a1 := a.(cache := AfterGet(a.cache, key, at));
            && (Lookup(a.cache, key, at).Some? ==>
                  CanReach(l, s, from, Alone(w, at, a1.(counts := CountHit(a.counts,
                      KeyFromHeader(req.header).Some?)))))
            && (Lookup(a.cache, key, at).None? ==>
                  CanReach(l, s, from, With(w, at, a1, id, Ask(req, t, Streaming(key, n, at), since))))
  {
    hide CanReach, Lookup, AfterGet, KeyOf, KeyFromHeader;
    var w0 := With(w, at, a, id, Ask(req, t, LookingUp(n), since));
    var key := KeyOf(s, req, t, n);
    StepReaches(l, s, w0, LookUp(id));
    var w1 := Next(l, s, w0, LookUp(id));
    assert KeyFor(s, w0.asks[id]) == key;
    if Lookup(a.cache, key, at).Some? {
      assert w1.asks == map[];
    } else {
      assert w1.asks == map[id := Ask(req, t, Streaming(key, n, at), since)];
    }
  }

  function TimeOfOp(op: StreamOp): real { op.at }

  /** The graph's calls come in order, between the stream's start and its timeout. */
  predicate TimelyOps(ops: seq<StreamOp>, from: real, until: real) {
    && (forall i :: 0 <= i < |ops| ==> from <= TimeOfOp(ops[i]) <= until)
    && (forall i, j :: 0 <= i < j < |ops| ==> TimeOfOp(ops[i]) <= TimeOfOp(ops[j]))
  }

  function LastTime(ops: seq<StreamOp>, from: real): real {
    if ops == [] then from else TimeOfOp(ops[|ops| - 1])
  }

  /** One call of the graph: the inner write, if any, then the touch. */
  lemma OpRuns(l: Limits, s: Settings, w: World, at: real, a: App, id: nat, ask: Ask, op: StreamOp)
    requires ask.stage.Streaming? && op.at == at
    ensures CanReach(l, s, With(w, at, a, id, ask),
                     With(w, at, a.(tables := Apply(a.tables, OpOf(ask.thread, op))), id, ask))
  {
    hide CanReach, Trunc, Save, SaveWrite, Touch;
    var w0 := With(w, at, a, id, ask);
    match op
    case Loaded(_) => StepReaches(l, s, w0, GraphTouch(id));
    case Saved(c, _) =>
      StepReaches(l, s, w0, GraphSave(id, c));
      ThenStep(l, s, w0, Next(l, s, w0, GraphSave(id, c)), GraphTouch(id));
    case SavedWrite(x, _) =>
      StepReaches(l, s, w0, GraphWrite(id, x));
      ThenStep(l, s, w0, Next(l, s, w0, GraphWrite(id, x)), GraphTouch(id));
  }

  lemma {:induction false} OpsRun(l: Limits, s: Settings, w: World, from: real, a: App, id: nat, ask: Ask,
                                ops: seq<StreamOp>)
    requires ask.stage.Streaming? && ask.stage.started == from
    requires TimelyOps(ops, from, from + Positive(l.timeout) as real)
    ensures CanReach(l, s, With(w, from, a, id, ask),
                     With(w, LastTime(ops, from), a.(tables := Streamed(a.tables, ask.thread, ops)), id, ask))
    ensures LastTime(ops, from) <= from + Positive(l.timeout) as real
  {
    hide CanReach, Apply, With;
    if ops == [] {
      Stays(l, s, With(w, from, a, id, ask));
    } else {
      var front, op := ops[..|ops| - 1], ops[|ops| - 1];
      TimelyFront(ops, from, from + Positive(l.timeout) as real);
      hide TimelyOps;
      OpsRun(l, s, w, from, a, id, ask, front);
      var a1 := a.(tables := Streamed(a.tables, ask.thread, front));
      var w0, w1 := With(w, from, a, id, ask), With(w, LastTime(front, from), a1, id, ask);
      WaitWith(l, s, w, LastTime(front, from), a1, id, ask, op.at);
      Then(l, s, w0, w1, With(w, op.at, a1, id, ask));
      OpRuns(l, s, w, op.at, a1, id, ask, op);
      Then(l, s, w0, With(w, op.at, a1, id, ask),
           With(w, op.at, a1.(tables := Apply(a1.tables, OpOf(ask.thread, op))), id, ask));
    }
  }

  lemma TimelyFront(ops: seq<StreamOp>, from: real, until: real)
    requires ops != [] && TimelyOps(ops, from, until)
    ensures TimelyOps(ops[..|ops| - 1], from, until)
    ensures LastTime(ops[..|ops| - 1], from) <= TimeOfOp(ops[|ops| - 1]) == ops[|ops| - 1].at <= until
  {}

  lemma AbortRuns(l: Limits, s: Settings, w: World, at: real, a: App, id: nat, ask: Ask)
    ensures CanReach(l, s, With(w, at, a, id, ask), Alone(w, at, a))
  {
    hide CanReach;
    var w0 := With(w, at, a, id, ask);
    StepReaches(l, s, w0, Abort(id));
    assert Next(l, s, w0, Abort(id)).asks == map[];
  }

  lemma FinishRuns(l: Limits, s: Settings, w: World, at: real, a: App, id: nat, ask: Ask, text: string, done: bool,
                   store: real)
    requires ask.stage.Streaming? && at <= store
    ensures var reply := Reply(ask.thread, text, done, ask.stage.number);
            CanReach(l, s, With(w, at, a, id, ask),
                     Alone(w, store, a.(counts := CountTurn(a.counts, done, ask.req.sessionId.None?),
                                        cache := AfterSet(a.cache, ask.stage.key, reply, store, s.maxsize, s.ttl))))
  {
    hide CanReach, AfterSet, CountTurn;
    var reply := Reply(ask.thread, text, done, ask.stage.number);
    var w0 := With(w, at, a, id, ask);
    var a1 := a.(counts := CountTurn(a.counts, done, ask.req.sessionId.None?));
    var stored := ask.(stage := Storing(ask.stage.key, reply));
    StepReaches(l, s, w0, Finish(id, text, done));
    assert Next(l, s, w0, Finish(id, text, done)) == With(w, at, a1, id, stored);
    WaitWith(l, s, w, at, a1, id, stored, store);
    Then(l, s, w0, With(w, at, a1, id, stored), With(w, store, a1, id, stored));
    ThenStep(l, s, w0, With(w, store, a1, id, stored), StoreReply(id));
    assert Next(l, s, With(w, store, a1, id, stored), StoreReply(id)).asks == map[];
  }

  /** The clock reads of a turn come in order, within the lag and the timeout. */
  predicate Timely(l: Limits, clock: real, req: TurnRequest, env: Env) {
    var ops := env.stream.ops;
    && (req.sessionId.Some? ==>
          && clock <= env.firstRead <= env.secondRead <= env.lookup
          && env.secondRead <= env.firstRead + l.lag as real && env.lookup <= env.secondRead + l.lag as real)
    && clock <= env.lookup
    && TimelyOps(ops, env.lookup, env.lookup + Positive(l.timeout) as real)
    && LastTime(ops, env.lookup) <= env.store
  }

  lemma ExecutedRuns(l: Limits, s: Settings, w: World, a: App, id: nat, req: TurnRequest, t: string, n: nat,
                     key: string,
                     env: Env, since: real)
    requires TimelyOps(env.stream.ops, env.lookup, env.lookup + Positive(l.timeout) as real)
    requires LastTime(env.stream.ops, env.lookup) <= env.store
    ensures EndsIn(l, s, With(w, env.lookup, a, id, Ask(req, t, Streaming(key, n, env.lookup), since)), w,
                   Executed(s, a, req.sessionId.None?, t, n, key, env).0)
  {
    hide CanReach, AfterSet, CountTurn, Streamed, LastSentinel, With, Alone, TimelyOps;
    var ask := Ask(req, t, Streaming(key, n, env.lookup), since);
    var ops := env.stream.ops;
    OpsRun(l, s, w, env.lookup, a, id, ask, ops);
    var a1, at := a.(tables := Streamed(a.tables, t, ops)), LastTime(ops, env.lookup);
    hide LastTime;
    var w0, w1 := With(w, env.lookup, a, id, ask), With(w, at, a1, id, ask);
    if env.stream.ending == Finished {
      var (text, done) := LastSentinel(env.stream.chunks);
      FinishRuns(l, s, w, at, a1, id, ask, text, done, env.store);
      var a2 := Executed(s, a, req.sessionId.None?, t, n, key, env).0;
      assert CanReach(l, s, w1, Alone(w, env.store, a2));
      ThenEnds(l, s, w0, w1, w, a2);
    } else {
      AbortRuns(l, s, w, at, a1, id, ask);
      assert a1 == Executed(s, a, req.sessionId.None?, t, n, key, env).0;
      ThenEnds(l, s, w0, w1, w, a1);
    }
  }

  lemma AnsweredRuns(l: Limits, s: Settings, w: World, a: App, id: nat, req: TurnRequest, t: string, n: nat, env: Env,
                     since: real)
    requires TimelyOps(env.stream.ops, env.lookup, env.lookup + Positive(l.timeout) as real)
    requires LastTime(env.stream.ops, env.lookup) <= env.store
    ensures EndsIn(l, s, With(w, env.lookup, a, id, Ask(req, t, LookingUp(n), since)), w, Answered(s, a, req, t, n,
        env).0)
  {
    hide CanReach, Executed, KeyOf, Lookup, AfterGet, CountHit, With, Alone, TimelyOps, LastTime, KeyFromHeader;
    LookUpRuns(l, s, w, env.lookup, a, id, req, t, n, since);
    var key := KeyOf(s, req, t, n);
    var w0 := With(w, env.lookup, a, id, Ask(req, t, LookingUp(n), since));
    if Lookup(a.cache, key, env.lookup).None? {
      var a1 := a.(cache := AfterGet(a.cache, key, env.lookup));
      var w1 := With(w, env.lookup, a1, id, Ask(req, t, Streaming(key, n, env.lookup), since));
      ExecutedRuns(l, s, w, a1, id, req, t, n, key, env, since);
      ThenEnds(l, s, w0, w1, w, Executed(s, a1, req.sessionId.None?, t, n, key, env).0);
    } else {
      assert CanReach(l, s, w0, Alone(w, env.lookup, Answered(s, a, req, t, n, env).0));
    }
  }

  /** Handling one /turn with nothing else under way is a run of the transition system. */
  lemma TurnIsRun(l: Limits, s: Settings, w: World, id: nat, req: TurnRequest, env: Env)
    requires w.asks == map[] && Timely(l, w.clock, req, env)
    requires req.sessionId.None? ==> FreshIn(w, env.uuid)
    ensures EndsIn(l, s, w, w, AfterTurn(s, w.app, req, env).0)
  {
    hide EndsIn, Answered, TimelyOps, LastTime;
    match req.sessionId
    case None => NewTurnRuns(l, s, w, id, req, env);
    case Some(t) => ResumedTurnRuns(l, s, w, id, req, t, env);
  }

  lemma NewTurnRuns(l: Limits, s: Settings, w: World, id: nat, req: TurnRequest, env: Env)
    requires w.asks == map[] && Timely(l, w.clock, req, env) && req.sessionId.None? && FreshIn(w, env.uuid)
    ensures EndsIn(l, s, w, w, Answered(s, w.app, req, env.uuid, 0, env).0)
  {
    hide CanReach, Answered, With, TimelyOps, LastTime;
    var a := w.app;
    var w1, w2 := Alone(w, env.lookup, a), With(w, env.lookup, a, id, Ask(req, env.uuid, LookingUp(0), env.lookup));
    WaitAlone(l, s, w, env.lookup);
    Arrives(l, s, w, env.lookup, a, id, req, env.uuid);
    Then(l, s, w, w1, w2);
    AnsweredRuns(l, s, w, a, id, req, env.uuid, 0, env, env.lookup);
    ThenEnds(l, s, w, w2, w, Answered(s, a, req, env.uuid, 0, env).0);
  }

  lemma ResumedTurnRuns(l: Limits, s: Settings, w: World, id: nat, req: TurnRequest, t: string, env: Env)
    requires w.asks == map[] && Timely(l, w.clock, req, env) && req.sessionId == Some(t)
    ensures EndsIn(l, s, w, w, AfterTurn(s, w.app, req, env).0)
  {
    hide CanReach, Answered, With, Alone, TimelyOps, LastTime, Read, MessageCount, Latest;
    var a := w.app;
    var w1, w2 := Alone(w, env.firstRead, a), With(w, env.firstRead, a, id, Ask(req, t, Routing, env.firstRead));
    WaitAlone(l, s, w, env.firstRead);
    Arrives(l, s, w, env.firstRead, a, id, req, env.uuid);
    Then(l, s, w, w1, w2);
    FirstReadRuns(l, s, w, env.firstRead, a, id, req, t);
    var a1 := Read(a, t, env.firstRead);
    if Latest(a.tables, t).None? {
      assert CanReach(l, s, w2, Alone(w, env.firstRead, a1));
      ThenEnds(l, s, w, w2, w, a1);
    } else {
      var w3 := With(w, env.firstRead, a1, id, Ask(req, t, Counting, env.firstRead));
      Then(l, s, w, w2, w3);
      FoundTurnRuns(l, s, w, w3, a1, id, req, t, env);
    }
  }

  lemma FoundTurnRuns(l: Limits, s: Settings, w: World, w3: World, a1: App, id: nat, req: TurnRequest, t: string,
                      env: Env)
    requires Timely(l, w.clock, req, env) && req.sessionId == Some(t)
    requires w3 == With(w, env.firstRead, a1, id, Ask(req, t, Counting, env.firstRead)) && CanReach(l, s, w, w3)
    ensures var a2, n := Read(a1, t, env.secondRead), MessageCount(a1.tables, t);
            EndsIn(l, s, w, w, Answered(s, a2, req, t, n, env).0)
  {
    hide CanReach, Answered, With, Alone, TimelyOps, LastTime, Read, MessageCount;
    var a2, n := Read(a1, t, env.secondRead), MessageCount(a1.tables, t);
    WaitWith(l, s, w, env.firstRead, a1, id, Ask(req, t, Counting, env.firstRead), env.secondRead);
    var w4 := With(w, env.secondRead, a1, id, Ask(req, t, Counting, env.firstRead));
    Then(l, s, w, w3, w4);
    SecondReadRuns(l, s, w, env.secondRead, a1, id, req, t, env.firstRead);
    var looking := Ask(req, t, LookingUp(n), env.secondRead);
    var w5, w6 := With(w, env.secondRead, a2, id, looking), With(w, env.lookup, a2, id, looking);
    Then(l, s, w, w4, w5);
    WaitWith(l, s, w, env.secondRead, a2, id, looking, env.lookup);
    Then(l, s, w, w5, w6);
    AnsweredRuns(l, s, w, a2, id, req, t, n, env, env.secondRead);
    ThenEnds(l, s, w, w6, w, Answered(s, a2, req, t, n, env).0);
  }

  // ---- One /done ----

  function Closing(w: World, at: real, a: App, id: nat, c: Close): World {
    w.(clock := at, app := a, closes := map[id := c])
  }

  /** Handling one /done with nothing else under way is a run of the transition system. */
  lemma DoneIsRun(l: Limits, s: Settings, w: World, id: nat, t: string, at: real, fails: bool)
    requires w.asks == map[] && w.closes == map[] && w.clock <= at
    ensures CanReach(l, s, w, w.(clock := at, app := AfterDone(w.app, t, at, fails)))
  {
    hide CanReach, Latest, Touched;
    var a := w.app;
    TouchIsRead(a, t, at);
    hide Read;
    var found := Latest(a.tables, t).Some?;
    WaitAlone(l, s, w, at);
    ThenStep(l, s, w, Alone(w, at, a), ArriveDone(id, t));
    ThenStep(l, s, w, Closing(w, at, a, id, Close(t, Reading)), ReadDone(id));
    var w1 := Closing(w, at, a, id, Close(t, Touching(found)));
    assert Next(l, s, Closing(w, at, a, id, Close(t, Reading)), ReadDone(id)) == w1;
    ThenStep(l, s, w, w1, TouchDone(id));
    if found {
      var w2 := Closing(w, at, Read(a, t, at), id, Close(t, Deleting));
      assert Next(l, s, w1, TouchDone(id)) == w2;
      ThenStep(l, s, w, w2, DeleteDone(id, fails));
      assert Next(l, s, w2, DeleteDone(id, fails)).closes == map[];
    } else {
      assert Next(l, s, w1, TouchDone(id)).closes == map[];
    }
  }

  // ---- One sweep ----

  /** The shared state once these threads are deleted and the gauge has followed. */
  function Evict(a: App, gone: set<string>): App {
    a.(tables := Sweeper.Without(a.tables, gone),
       counts := a.counts.(activeSessions := a.counts.activeSessions - |gone|))
  }

  lemma {:induction false} DeletionsRun(l: Limits, s: Settings, w: World, todo: set<string>, deleted: nat,
                                fails: set<string>)
    requires w.sweep == Sweeping(todo, deleted)
    ensures var gone := todo - fails;
            CanReach(l, s, w, w.(app := Evict(w.app, gone), sweep := Sweeping({}, deleted + |gone|)))
    decreases todo
  {
    hide CanReach, Sweeper.Without, Delete;
    if todo == {} {
      Sweeper.NothingHandled(w.app.tables, {}, fails);
      assert Sweeper.Handled({}, {}, fails) == {} - fails;
      Stays(l, s, w);
    } else {
      var t :| t in todo;
      var e := DeleteStale(t, t in fails);
      StepReaches(l, s, w, e);
      var w1 := Next(l, s, w, e);
      DeletionsRun(l, s, w1, w1.sweep.todo, w1.sweep.deleted, fails);
      OneDeletion(w.app.tables, todo, fails, t);
      var gone := todo - {t} - fails;
      Then(l, s, w, w1, w1.(app := Evict(w1.app, gone), sweep := Sweeping({}, w1.sweep.deleted + |gone|)));
    }
  }

  lemma OneDeletion(tb: Tables, todo: set<string>, fails: set<string>, t: string)
    requires t in todo
    ensures var gone, rest := todo - fails, todo - {t} - fails;
            && (t in fails ==> rest == gone)
            && (t !in fails ==> |gone| == |rest| + 1)
            && (t !in fails ==> Sweeper.Without(Delete(tb, t), rest) == Sweeper.Without(tb, gone))
  {
    var gone, rest := todo - fails, todo - {t} - fails;
    if t in fails {
      assert rest == gone;
    } else {
      assert gone == rest + {t};
      assert tb.checkpoints - {t} - rest == tb.checkpoints - gone;
      assert tb.writes - {t} - rest == tb.writes - gone;
      assert tb.touched - {t} - rest == tb.touched - gone;
    }
  }

  /** One tick with nothing else under way is a run of the transition system. */
  lemma TickIsRun(l: Limits, s: Settings, w: World, wake: Sweeper.Wake)
    requires w.asks == map[] && w.sweep == Asleep && w.clock <= wake.clock
    ensures var gone := Sweeper.Evicted(w.app.tables, l.threshold, wake);
            CanReach(l, s, w, w.(clock := wake.clock,
                                 app := w.app.(tables := Sweeper.Without(w.app.tables, gone),
                                               counts := Sweeper.Ticked(w.app.counts, |gone|))))
  {
    hide CanReach, Sweeper.Without, Delete, Stale, Trunc;
    var stale := Stale(w.app.tables, Trunc(wake.clock), l.threshold);
    var w2 := w.(clock := wake.clock, sweep := Sweeping(stale, 0));
    ScanRuns(l, s, w, wake.clock);
    DeletionsRun(l, s, w2, stale, 0, wake.fails);
    var gone := stale - wake.fails;
    var w3 := w2.(app := Evict(w2.app, gone), sweep := Sweeping({}, |gone|));
    Then(l, s, w, w2, w3);
    ThenStep(l, s, w, w3, EndTick);
  }

  lemma ScanRuns(l: Limits, s: Settings, w: World, at: real)
    requires w.asks == map[] && w.sweep == Asleep && w.clock <= at
    ensures CanReach(l, s, w, w.(clock := at, sweep := Sweeping(Stale(w.app.tables, Trunc(at), l.threshold), 0)))
  {
    hide CanReach, Stale, Trunc;
    WaitAlone(l, s, w, at);
    var w0 := Alone(w, at, w.app);
    ThenStep(l, s, w, w0, WakeUp);
    var w1 := Next(l, s, w0, WakeUp);
    ThenStep(l, s, w, w1, Scan);
  }

  // ---- Where the guarantee ends ----

  /** A server with one idle session, last touched at time 0. */
  function OneSession(clock: real, t: string, c: Checkpoint): World {
    World(clock, App(Tables(map[t := [c]], map[], map[t := 0]), [], M.NoCounts()), map[], map[], Asleep)
  }

  function Resume(t: string, message: string): TurnRequest {
    TurnRequest(Some(t), message, None)
  }

  predicate JustStreaming(w: World, t: string, delay: nat, ask: Ask) {
    ask.stage.Streaming? && ask.thread == t && ask.stage.started == w.clock + delay as real
  }

  /** The world with a request streaming on thread t, which it touched `delay` seconds ago. */
  function Resumed(w: World, t: string, delay: nat, ask: Ask): World {
    With(w, w.clock + delay as real, w.app.(tables := Touched(w.app.tables, t, w.clock)), 0, ask)
  }

  /** A request for a known session, with an empty cache, reaches its stream, after any delay within the lag. */
  lemma ResumeReachesStream(l: Limits, s: Settings, w: World, t: string, message: string, delay: nat)
    requires w.asks == map[] && w.app.cache == [] && Latest(w.app.tables, t).Some? && delay <= l.lag
    ensures exists ask :: JustStreaming(w, t, delay, ask) && CanReach(l, s, w, Resumed(w, t, delay, ask))
  {
    hide CanReach, Latest, With, MessageCount, Touched, KeyOf;
    var at, a, req := w.clock, w.app, Resume(t, message);
    var a1 := Read(a, t, at);
    TouchIsRead(a, t, at);
    TouchIsRead(a1, t, at);
    TouchTwice(a.tables, t, at);
    hide Read;
    assert w == Alone(w, at, a);
    Arrives(l, s, w, at, a, 0, req, "");
    FirstReadRuns(l, s, w, at, a, 0, req, t);
    var w1 := With(w, at, a, 0, Ask(req, t, Routing, at));
    var w2 := With(w, at, a1, 0, Ask(req, t, Counting, at));
    Then(l, s, w, w1, w2);
    SecondReadRuns(l, s, w, at, a1, 0, req, t, at);
    var n := MessageCount(a1.tables, t);
    var w3 := With(w, at, a1, 0, Ask(req, t, LookingUp(n), at));
    Then(l, s, w, w2, w3);
    DelayedLookUp(l, s, w, w3, a1, req, t, n, delay);
  }

  lemma DelayedLookUp(l: Limits, s: Settings, w: World, w3: World, a1: App, req: TurnRequest, t: string, n: nat,
                      delay: nat)
    requires w3 == With(w, w.clock, a1, 0, Ask(req, t, LookingUp(n), w.clock)) && CanReach(l, s, w, w3)
    requires a1 == w.app.(tables := Touched(w.app.tables, t, w.clock)) && a1.cache == [] && delay <= l.lag
    ensures exists ask :: JustStreaming(w, t, delay, ask) && CanReach(l, s, w, Resumed(w, t, delay, ask))
  {
    hide CanReach, With, Touched, KeyOf;
    var late := w.clock + delay as real;
    var looking := Ask(req, t, LookingUp(n), w.clock);
    WaitWith(l, s, w, w.clock, a1, 0, looking, late);
    Then(l, s, w, w3, With(w, late, a1, 0, looking));
    LookUpRuns(l, s, w, late, a1, 0, req, t, n, w.clock);
    var key := KeyOf(s, req, t, n);
    assert Lookup(a1.cache, key, late).None? && AfterGet(a1.cache, key, late) == a1.cache;
    var ask := Ask(req, t, Streaming(key, n, late), w.clock);
    Then(l, s, w, With(w, late, a1, 0, looking), With(w, late, a1, 0, ask));
    assert Resumed(w, t, delay, ask) == With(w, late, a1, 0, ask);
    assert JustStreaming(w, t, delay, ask);
  }

  lemma TouchTwice(tb: Tables, t: string, at: real)
    ensures Touched(Touched(tb, t, at), t, at) == Touched(tb, t, at)
  {}

  predicate StreamsOnNothing(w: World, t: string) {
    0 in w.asks && w.asks[0].stage.Streaming? && w.asks[0].thread == t && t !in w.app.tables.checkpoints
  }

  /** The guarantee holds at the scan only: a turn may start between the scan and the deletion, and then
      streams on a session whose checkpoint is gone. */
  lemma TurnMayStartAfterScan(l: Limits, s: Settings, clock: real, t: string, c: Checkpoint, message: string)
    requires t != "" && 0 < Trunc(clock) - l.threshold
    ensures exists w1 :: CanReach(l, s, OneSession(clock, t, c), w1) && StreamsOnNothing(w1, t)
  {
    hide CanReach, Trunc, Touched, StreamsOnNothing;
    var w := OneSession(clock, t, c);
    ScanFindsIdle(l, s, clock, t, c);
    var w2 := w.(sweep := Sweeping({t}, 0));
    assert Latest(w2.app.tables, t) == Some(c) by { assert Rows(w2.app.tables.checkpoints, t) == [c]; }
    ResumeReachesStream(l, s, w2, t, message, 0);
    var ask :| JustStreaming(w2, t, 0, ask) && CanReach(l, s, w2, Resumed(w2, t, 0, ask));
    var w3 := Resumed(w2, t, 0, ask);
    Then(l, s, w, w2, w3);
    DeletedUnderTurn(l, s, w3, t, ask);
    Then(l, s, w, w3, Next(l, s, w3, DeleteStale(t, false)));
  }

  lemma ScanFindsIdle(l: Limits, s: Settings, clock: real, t: string, c: Checkpoint)
    requires 0 < Trunc(clock) - l.threshold
    ensures var w := OneSession(clock, t, c); CanReach(l, s, w, w.(sweep := Sweeping({t}, 0)))
  {
    hide CanReach, Trunc;
    var w := OneSession(clock, t, c);
    StepReaches(l, s, w, WakeUp);
    var w1 := Next(l, s, w, WakeUp);
    ThenStep(l, s, w, w1, Scan);
    assert Stale(w1.app.tables, w1.sweep.now, l.threshold) == {t};
  }

  lemma DeletedUnderTurn(l: Limits, s: Settings, w: World, t: string, ask: Ask)
    requires w.sweep == Sweeping({t}, 0) && w.asks == map[0 := ask] && ask.stage.Streaming? && ask.thread == t
    ensures var e := DeleteStale(t, false);
            Enabled(l, w, e) && CanReach(l, s, w, Next(l, s, w, e)) && StreamsOnNothing(Next(l, s, w, e), t)
  {
    hide CanReach;
    StepReaches(l, s, w, DeleteStale(t, false));
  }

  /** About to scan, the sweeper will find no thread with a turn in flight. */
  predicate Spares(l: Limits, w: World) {
    w.sweep.Clocked? ==>
      forall id :: id in w.asks && InFlight(w.asks[id]) ==> w.asks[id].thread !in Stale(w.app.tables, w.sweep.now,
          l.threshold)
  }

  ghost predicate AlwaysSpares(l: Limits, s: Settings) {
    forall w, w1 :: Idle(w) && CanReach(l, s, w, w1) ==> Spares(l, w1)
  }

  /** The scan spares every turn in flight, in every interleaving, exactly when the threshold covers the lag
      and the timeout. */
  lemma ThresholdIsExact(l: Limits, s: Settings)
    ensures AlwaysSpares(l, s) <==> l.lag + (if l.timeout > 0 then l.timeout else 0) <= l.threshold
  {
    hide CanReach, Spares, Idle;
    if l.lag + Positive(l.timeout) <= l.threshold {
      forall w, w1 | Idle(w) && CanReach(l, s, w, w1) ensures Spares(l, w1) { RunSpares(l, s, w, w1); }
    } else {
      LowThresholdFindsTurn(l, s, "a", Checkpoint(map[]), "hello");
    }
  }

  lemma RunSpares(l: Limits, s: Settings, w: World, w1: World)
    requires l.lag + Positive(l.timeout) <= l.threshold && Idle(w) && CanReach(l, s, w, w1)
    ensures Spares(l, w1)
  {
    hide Idle, InFlight, Stale, Next, Possible, Reach, Guarded;
    var es :| Leads(l, s, w, es, w1);
    RunIsSafe(l, s, w, es);
    if w1.sweep.Clocked? {
      forall id | id in w1.asks && InFlight(w1.asks[id])
        ensures w1.asks[id].thread !in Stale(w1.app.tables, w1.sweep.now, l.threshold)
      {
        GuardedIsNotStale(l, w1, w1.asks[id], w1.sweep.now);
      }
    }
  }

  /** With a lower threshold a turn that is still on time is found stale. */
  lemma LowThresholdFindsTurn(l: Limits, s: Settings, t: string, c: Checkpoint, message: string)
    requires t != "" && l.threshold < l.lag + Positive(l.timeout)
    ensures exists w1 :: Idle(OneSession(0.0, t, c)) && CanReach(l, s, OneSession(0.0, t, c), w1) && !Spares(l, w1)
  {
    hide CanReach, Touched, Possible, Spares;
    var w := OneSession(0.0, t, c);
    assert Latest(w.app.tables, t) == Some(c) by { assert Rows(w.app.tables.checkpoints, t) == [c]; }
    ResumeReachesStream(l, s, w, t, message, l.lag);
    var ask :| JustStreaming(w, t, l.lag, ask) && CanReach(l, s, w, Resumed(w, t, l.lag, ask));
    StreamingTurnIsFound(l, s, w, t, ask);
  }

  lemma StreamingTurnIsFound(l: Limits, s: Settings, w: World, t: string, ask: Ask)
    requires t != "" && l.threshold < l.lag + Positive(l.timeout) && w.sweep == Asleep && w.clock == 0.0
    requires JustStreaming(w, t, l.lag, ask) && CanReach(l, s, w, Resumed(w, t, l.lag, ask))
    ensures exists w3 :: CanReach(l, s, w, w3) && !Spares(l, w3)
  {
    hide CanReach, Possible;
    var late := l.lag + Positive(l.timeout);
    var a1 := w.app.(tables := Touched(w.app.tables, t, w.clock));
    WaitWith(l, s, w, l.lag as real, a1, 0, ask, late as real);
    var w2 := With(w, late as real, a1, 0, ask);
    Then(l, s, w, Resumed(w, t, l.lag, ask), w2);
    ThenStep(l, s, w, w2, WakeUp);
    var w3 := Next(l, s, w2, WakeUp);
    assert w3.app.tables.touched[t] == 0 && w3.sweep == Clocked(late);
    assert t in Stale(w3.app.tables, w3.sweep.now, l.threshold) && w3.asks[0] == ask;
    assert !Spares(l, w3);
  }
}
