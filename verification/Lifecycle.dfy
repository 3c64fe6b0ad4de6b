/** Sessions over whole runs of requests and sweeps that do not overlap: the gauge against the store,
    and the replay of stored replies. */
module Lifecycle {
  import opened PyText
  import opened CheckpointFactory
  import opened Idempotency
  import opened TurnApi
  import M = Metrics
  import Sweeper

  datatype Request =
    | Turn(req: TurnRequest, env: Env)
    | Done(thread: string, at: real, fails: bool)
    | Sweep(wake: Sweeper.Wake)

  function After(s: Settings, threshold: int, a: App, r: Request): App {
    match r
    case Turn(req, env) => AfterTurn(s, a, req, env).0
    case Done(thread, at, fails) => AfterDone(a, thread, at, fails)
    case Sweep(wake) =>
      var gone := Sweeper.Evicted(a.tables, threshold, wake);
      a.(tables := Sweeper.Without(a.tables, gone), counts := Sweeper.Ticked(a.counts, |gone|))
  }

  function AfterAll(s: Settings, threshold: int, a: App, rs: seq<Request>): App {
    if rs == [] then a
    else After(s, threshold, AfterAll(s, threshold, a, rs[..|rs| - 1]), rs[|rs| - 1])
  }

  function EmptyApp(): App {
    App(EmptyTables(), [], M.NoCounts())
  }

  // ---- The gauge counts the checkpointed threads ----

  predicate HasSave(ops: seq<StreamOp>) {
    exists i :: 0 <= i < |ops| && ops[i].Saved?
  }

  /** Threads with a checkpoint are the threads with a touch, and each has at least one checkpoint. */
  predicate SteadyTables(tb: Tables) {
    && tb.touched.Keys == tb.checkpoints.Keys && "" !in tb.checkpoints
    && forall t :: t in tb.checkpoints ==> tb.checkpoints[t] != []
  }

  predicate Steady(a: App) {
    SteadyTables(a.tables) && a.counts.activeSessions == |a.tables.checkpoints|
  }

  /** A new turn whose bookkeeping comes out even: answered from the cache, ended with a checkpoint saved, or cut
      off before the graph called its checkpointer at all. */
  predicate Even(s: Settings, a: App, req: TurnRequest, t: string, turnN: nat, env: Env) {
    || Lookup(a.cache, KeyOf(s, req, t, turnN), env.lookup).Some?
    || (env.stream.ending == Finished && HasSave(env.stream.ops))
    || (env.stream.ending != Finished && env.stream.ops == [])
  }

  /** New turns come out even; no request names an id lacking a checkpoint, other than the empty one, which is
      never touched. */
  predicate Polite(s: Settings, a: App, r: Request) {
    match r
    case Turn(req, env) =>
      if req.sessionId.None? then Even(s, a, req, env.uuid, 0, env)
      else req.sessionId.value in a.tables.checkpoints || req.sessionId.value == ""
    case Done(thread, _, _) => thread in a.tables.checkpoints || thread == ""
    case Sweep(_) => true
  }

  /** The id a new turn draws is in no table. */
  predicate FreshId(a: App, r: Request) {
    r.Turn? && r.req.sessionId.None? ==>
      r.env.uuid != "" && r.env.uuid !in a.tables.checkpoints && r.env.uuid !in a.tables.touched
  }

  /** The states a series of requests and sweeps passes through. */
  predicate IsRun(s: Settings, threshold: int, apps: seq<App>, rs: seq<Request>) {
    |apps| == |rs| + 1 && forall i :: 0 <= i < |rs| ==> apps[i + 1] == After(s, threshold, apps[i], rs[i])
  }

  lemma {:induction false} StreamedKeys(tb: Tables, t: string, ops: seq<StreamOp>)
    requires t != ""
    ensures var tb1 := Streamed(tb, t, ops);
            && tb1.touched.Keys == tb.touched.Keys + (if ops != [] then {t} else {})
            && tb1.checkpoints.Keys == tb.checkpoints.Keys + (if HasSave(ops) then {t} else {})
            && ((forall k :: k in tb.checkpoints ==> tb.checkpoints[k] != [])
                ==> forall k :: k in tb1.checkpoints ==> tb1.checkpoints[k] != [])
  {
    hide Trunc;
    if ops != [] {
      var front, op := ops[..|ops| - 1], ops[|ops| - 1];
      StreamedKeys(tb, t, front);
      OneOpKeys(Streamed(tb, t, front), t, op);
      HasSaveLast(ops);
    }
  }

  lemma HasSaveLast(ops: seq<StreamOp>)
    requires ops != []
    ensures HasSave(ops) <==> HasSave(ops[..|ops| - 1]) || ops[|ops| - 1].Saved?
  {
    var front := ops[..|ops| - 1];
    if HasSave(ops) {
      var i :| 0 <= i < |ops| && ops[i].Saved?;
      if i < |front| { assert front[i].Saved?; }
    }
    if HasSave(front) {
      var i :| 0 <= i < |front| && front[i].Saved?;
      assert ops[i].Saved?;
    }
  }

  lemma OneOpKeys(tb: Tables, t: string, op: StreamOp)
    requires t != ""
    ensures var tb1 := Apply(tb, OpOf(t, op));
            && tb1.touched.Keys == tb.touched.Keys + {t}
            && tb1.checkpoints.Keys == tb.checkpoints.Keys + (if op.Saved? then {t} else {})
            && ((forall k :: k in tb.checkpoints ==> tb.checkpoints[k] != [])
                ==> forall k :: k in tb1.checkpoints ==> tb1.checkpoints[k] != [])
  {
    hide Trunc;
  }

  lemma StreamKeepsSteady(tb: Tables, t: string, ops: seq<StreamOp>)
    requires SteadyTables(tb) && t != "" && (t in tb.checkpoints || HasSave(ops))
    ensures var tb1 := Streamed(tb, t, ops);
            SteadyTables(tb1) && |tb1.checkpoints| == |tb.checkpoints| + (if t in tb.checkpoints then 0 else 1)
  {
    hide SteadyTables;
    SteadyKeys(tb);
    StreamedKeys(tb, t, ops);
    hide Streamed;
    if HasSave(ops) { assert ops != []; }
    SteadyAdd(tb, Streamed(tb, t, ops), t);
  }

  lemma SteadyKeys(tb: Tables)
    requires SteadyTables(tb)
    ensures tb.touched.Keys == tb.checkpoints.Keys && "" !in tb.checkpoints
    ensures forall k :: k in tb.checkpoints ==> tb.checkpoints[k] != []
  {}

  lemma SteadyAdd(tb: Tables, tb1: Tables, t: string)
    requires SteadyTables(tb) && t != ""
    requires tb1.checkpoints.Keys == tb.checkpoints.Keys + {t}
    requires tb1.touched.Keys == tb.touched.Keys + {t} || (t in tb.touched && tb1.touched.Keys == tb.touched.Keys)
    requires forall k :: k in tb1.checkpoints ==> tb1.checkpoints[k] != []
    ensures SteadyTables(tb1) && |tb1.checkpoints| == |tb.checkpoints| + (if t in tb.checkpoints then 0 else 1)
  {
    KeyCount(tb.checkpoints, tb1.checkpoints, t);
    assert "" in tb1.checkpoints <==> "" in tb1.checkpoints.Keys;
  }

  lemma KeyCount<T>(m: map<string, T>, m1: map<string, T>, t: string)
    requires m1.Keys == m.Keys + {t}
    ensures |m1| == |m| + (if t in m then 0 else 1)
  {
    assert |m1| == |m1.Keys| && |m| == |m.Keys|;
    if t in m { assert m.Keys + {t} == m.Keys; }
  }

  lemma ReadKeepsSteady(tb: Tables, t: string, at: real)
    requires SteadyTables(tb) && t in tb.checkpoints
    ensures var tb1 := Apply(tb, AGetTuple(Config(Some(t)), at));
            SteadyTables(tb1) && tb1.checkpoints == tb.checkpoints
  {
    hide Trunc;
  }

  /** The graph's run on a thread that has checkpoints keeps the state steady, whatever it does and however it ends. */
  lemma ResumedExecutes(s: Settings, a: App, t: string, turnN: nat, key: string, env: Env)
    requires Steady(a) && t in a.tables.checkpoints
    ensures Steady(Executed(s, a, false, t, turnN, key, env).0)
  {
    hide SteadyTables, Streamed, HasSave, LastSentinel, AfterSet;
    NoEmptyId(a.tables, t);
    StreamKeepsSteady(a.tables, t, env.stream.ops);
  }

  /** On a fresh thread it keeps it steady exactly when it ends with a checkpoint or never calls the checkpointer. */
  lemma NewExecutesExactly(s: Settings, a: App, t: string, turnN: nat, key: string, env: Env)
    requires Steady(a) && t != "" && t !in a.tables.checkpoints && t !in a.tables.touched
    ensures Steady(Executed(s, a, true, t, turnN, key, env).0)
            <==> ((env.stream.ending == Finished && HasSave(env.stream.ops))
                  || (env.stream.ending != Finished && env.stream.ops == []))
  {
    hide SteadyTables, Streamed, HasSave, LastSentinel, AfterSet;
    NewStreamExactly(a.tables, t, env.stream.ops);
    NoOpsNoSave(env.stream.ops);
  }

  /** The stream keeps the tables steady exactly when it saves, which adds the one thread, or calls nothing. */
  lemma NewStreamExactly(tb: Tables, t: string, ops: seq<StreamOp>)
    requires SteadyTables(tb) && t != "" && t !in tb.checkpoints && t !in tb.touched
    ensures SteadyTables(Streamed(tb, t, ops)) <==> HasSave(ops) || ops == []
    ensures |Streamed(tb, t, ops).checkpoints| == |tb.checkpoints| + if HasSave(ops) then 1 else 0
  {
    hide SteadyTables, Streamed, HasSave;
    var tb1 := Streamed(tb, t, ops);
    StreamedKeys(tb, t, ops);
    SteadyKeys(tb);
    if HasSave(ops) {
      StreamKeepsSteady(tb, t, ops);
    } else {
      SameKeysSameCount(tb.checkpoints, tb1.checkpoints);
      if ops == [] {
        StreamedNothing(tb, t);
      } else {
        TouchedAloneIsNotSteady(tb1, t);
      }
    }
  }

  lemma NoOpsNoSave(ops: seq<StreamOp>)
    ensures ops == [] ==> !HasSave(ops)
  {}

  lemma StreamedNothing(tb: Tables, t: string)
    ensures Streamed(tb, t, []) == tb
  {}

  lemma SameKeysSameCount<T>(m: map<string, T>, m1: map<string, T>)
    requires m1.Keys == m.Keys + {}
    ensures |m1| == |m|
  {
    assert m1.Keys == m.Keys && |m1| == |m1.Keys| && |m| == |m.Keys|;
  }

  lemma TouchedAloneIsNotSteady(tb: Tables, t: string)
    requires t in tb.touched.Keys && t !in tb.checkpoints.Keys
    ensures !SteadyTables(tb)
  {}

  lemma NewAnswersExactly(s: Settings, a: App, req: TurnRequest, env: Env)
    requires Steady(a) && req.sessionId.None? && FreshId(a, Turn(req, env))
    ensures Steady(Answered(s, a, req, env.uuid, 0, env).0) <==> Even(s, a, req, env.uuid, 0, env)
  {
    hide SteadyTables, Executed, HasSave, AfterGet, Lookup, KeyOf, KeyFromHeader;
    var key := KeyOf(s, req, env.uuid, 0);
    if Lookup(a.cache, key, env.lookup).None? {
      NewExecutesExactly(s, a.(cache := AfterGet(a.cache, key, env.lookup)), env.uuid, 0, key, env);
    }
  }

  lemma ResumedAnswers(s: Settings, a: App, req: TurnRequest, t: string, turnN: nat, env: Env)
    requires Steady(a) && req.sessionId == Some(t) && t in a.tables.checkpoints
    ensures Steady(Answered(s, a, req, t, turnN, env).0)
  {
    hide SteadyTables, Executed, AfterGet, Lookup, KeyOf, KeyFromHeader;
    var key := KeyOf(s, req, t, turnN);
    if Lookup(a.cache, key, env.lookup).None? {
      ResumedExecutes(s, a.(cache := AfterGet(a.cache, key, env.lookup)), t, turnN, key, env);
    }
  }

  /** Reading an id without a checkpoint keeps the state steady exactly when it is the empty one. */
  lemma UnknownReadExactly(a: App, t: string, at: real)
    requires Steady(a) && t !in a.tables.checkpoints
    ensures Steady(Read(a, t, at)) <==> t == ""
  {
    hide Trunc;
    if t != "" { assert t in Read(a, t, at).tables.touched.Keys; }
  }

  lemma UnknownHasNothing(tb: Tables, t: string)
    requires t !in tb.checkpoints
    ensures Latest(tb, t).None?
  {}

  lemma TurnSteadyExactly(s: Settings, a: App, req: TurnRequest, env: Env)
    requires Steady(a) && FreshId(a, Turn(req, env))
    ensures Steady(AfterTurn(s, a, req, env).0) <==> Polite(s, a, Turn(req, env))
  {
    hide SteadyTables, Answered, Even, Apply, MessageCount, Latest;
    match req.sessionId
    case None => NewAnswersExactly(s, a, req, env);
    case Some(t) =>
      if t in a.tables.checkpoints {
        NoEmptyId(a.tables, t);
        ReadKeepsSteady(a.tables, t, env.firstRead);
        var a1 := Read(a, t, env.firstRead);
        ReadKeepsSteady(a1.tables, t, env.secondRead);
        ResumedAnswers(s, Read(a1, t, env.secondRead), req, t, MessageCount(a1.tables, t), env);
      } else {
        UnknownHasNothing(a.tables, t);
        UnknownReadExactly(a, t, env.firstRead);
      }
  }

  lemma NoEmptyId(tb: Tables, t: string)
    requires SteadyTables(tb) && t in tb.checkpoints
    ensures t != "" && Latest(tb, t).Some?
  {}

  lemma DoneSteadyExactly(a: App, t: string, at: real, fails: bool)
    requires Steady(a)
    ensures Steady(AfterDone(a, t, at, fails)) <==> t in a.tables.checkpoints || t == ""
  {
    hide Latest;
    if t in a.tables.checkpoints {
      DoneKeepsSteady(a, t, at, fails);
    } else {
      hide Apply, SteadyTables;
      UnknownHasNothing(a.tables, t);
      UnknownReadExactly(a, t, at);
      var a1 := Read(a, t, at);
      assert AfterDone(a, t, at, fails) == a1.(counts := a1.counts.(doneTotal := a1.counts.doneTotal + 1));
    }
  }

  lemma DoneKeepsSteady(a: App, t: string, at: real, fails: bool)
    requires Steady(a) && t in a.tables.checkpoints
    ensures Steady(AfterDone(a, t, at, fails))
  {
    hide Apply;
    ReadKeepsSteady(a.tables, t, at);
    NoEmptyId(a.tables, t);
    var tb1 := Apply(a.tables, AGetTuple(Config(Some(t)), at));
    assert (tb1.checkpoints - {t}).Keys == tb1.checkpoints.Keys - {t};
    assert (tb1.touched - {t}).Keys == tb1.touched.Keys - {t};
    KeyCount(tb1.checkpoints - {t}, tb1.checkpoints, t);
  }

  lemma SweepKeepsSteady(s: Settings, threshold: int, a: App, wake: Sweeper.Wake)
    requires Steady(a)
    ensures Steady(After(s, threshold, a, Sweep(wake)))
  {
    hide SteadyTables, Sweeper.Without, Trunc;
    var gone := Sweeper.Evicted(a.tables, threshold, wake);
    assert gone <= a.tables.touched.Keys;
    hide Sweeper.Evicted;
    SweptSteady(a.tables, gone);
  }

  lemma SweptSteady(tb: Tables, gone: set<string>)
    requires SteadyTables(tb) && gone <= tb.touched.Keys
    ensures var tb1 := Sweeper.Without(tb, gone);
            SteadyTables(tb1) && |tb1.checkpoints| + |gone| == |tb.checkpoints|
  {
    KeysLess(tb.checkpoints, gone);
    KeysLess(tb.touched, gone);
  }

  lemma KeysLess<T>(m: map<string, T>, gone: set<string>)
    requires gone <= m.Keys
    ensures (m - gone).Keys == m.Keys - gone && |m - gone| + |gone| == |m|
  {
    assert (m - gone).Keys == m.Keys - gone && |(m - gone).Keys| == |m - gone| && |m.Keys| == |m|;
    assert m.Keys == (m.Keys - gone) + gone;
  }

  /** One request, with a fresh id if it draws one, keeps a steady state steady exactly when it is polite. */
  lemma SteadyAfterExactly(s: Settings, threshold: int, a: App, r: Request)
    requires Steady(a) && FreshId(a, r)
    ensures Steady(After(s, threshold, a, r)) <==> Polite(s, a, r)
  {
    hide AfterTurn, AfterDone, SteadyTables, Even;
    match r
    case Turn(req, env) => TurnSteadyExactly(s, a, req, env);
    case Done(t, at, fails) => DoneSteadyExactly(a, t, at, fails);
    case Sweep(wake) => SweepKeepsSteady(s, threshold, a, wake);
  }

  /** The empty store with an unused gauge is steady. */
  lemma EmptyIsSteady()
    ensures Steady(EmptyApp())
  {}

  /** Over a run of polite requests from a steady state the gauge is the number of checkpointed threads. */
  lemma {:induction false} GaugeCountsSessions(s: Settings, threshold: int, apps: seq<App>, rs: seq<Request>, n: nat)
    requires IsRun(s, threshold, apps, rs) && Steady(apps[0]) && n <= |rs|
    requires forall i :: 0 <= i < |rs| ==> FreshId(apps[i], rs[i]) && Polite(s, apps[i], rs[i])
    ensures Steady(apps[n])
  {
    hide After, Polite, SteadyTables, FreshId;
    if n > 0 {
      GaugeCountsSessions(s, threshold, apps, rs, n - 1);
      assert FreshId(apps[n - 1], rs[n - 1]) && apps[(n - 1) + 1] == After(s, threshold, apps[n - 1], rs[n - 1]);
      SteadyAfterExactly(s, threshold, apps[n - 1], rs[n - 1]);
    }
  }

  /** A run from a steady state stays steady throughout exactly when every request in it is polite. */
  lemma GaugeIsExactWhen(s: Settings, threshold: int, apps: seq<App>, rs: seq<Request>)
    requires IsRun(s, threshold, apps, rs) && Steady(apps[0])
    requires forall i :: 0 <= i < |rs| ==> FreshId(apps[i], rs[i])
    ensures (forall n :: 0 <= n < |apps| ==> Steady(apps[n]))
            <==> (forall i :: 0 <= i < |rs| ==> Polite(s, apps[i], rs[i]))
  {
    hide After, Polite, Steady, FreshId;
    if forall i :: 0 <= i < |rs| ==> Polite(s, apps[i], rs[i]) {
      forall n | 0 <= n < |apps| ensures Steady(apps[n]) { GaugeCountsSessions(s, threshold, apps, rs, n); }
    }
    if forall n :: 0 <= n < |apps| ==> Steady(apps[n]) {
      forall i | 0 <= i < |rs| ensures Polite(s, apps[i], rs[i]) {
        assert FreshId(apps[i], rs[i]) && Steady(apps[i]) && Steady(apps[i + 1]);
        SteadyAfterExactly(s, threshold, apps[i], rs[i]);
      }
    }
  }

  // ---- Steady is what keeps the gauge exact ----

  predicate Exact(a: App) {
    a.counts.activeSessions == |a.tables.checkpoints|
  }

  /** The gauge is exact, and would be after any sweep. */
  ghost predicate ExactForGood(s: Settings, threshold: int, a: App) {
    Exact(a) && forall wake: Sweeper.Wake :: Exact(After(s, threshold, a, Sweep(wake)))
  }

  /** Every checkpointed thread has a touched row. */
  predicate Rowed(tb: Tables) {
    && tb.checkpoints.Keys <= tb.touched.Keys && "" !in tb.checkpoints
    && forall t :: t in tb.checkpoints ==> tb.checkpoints[t] != []
  }

  lemma SweepOfRow(s: Settings, threshold: int, a: App, t: string)
    requires t in a.tables.touched && t !in a.tables.checkpoints && Exact(a)
    ensures exists wake: Sweeper.Wake :: !Exact(After(s, threshold, a, Sweep(wake)))
  {
    var now := a.tables.touched[t] + threshold + 1;
    var wake := Sweeper.Wake(now as real, a.tables.touched.Keys - {t});
    assert Trunc(wake.clock) == now;
    assert Sweeper.Evicted(a.tables, threshold, wake) == {t};
    assert a.tables.checkpoints - {t} == a.tables.checkpoints;
    assert !Exact(After(s, threshold, a, Sweep(wake)));
  }

  lemma NoRowToSpare(tb: Tables)
    requires Rowed(tb) && forall t :: t in tb.touched ==> t in tb.checkpoints
    ensures SteadyTables(tb)
  {
    assert tb.touched.Keys == tb.checkpoints.Keys;
  }

  /** Where every checkpointed thread has a row, the gauge is exact and stays so under every sweep exactly when the
      state is steady. */
  lemma SteadyExactly(s: Settings, threshold: int, a: App)
    requires Rowed(a.tables)
    ensures ExactForGood(s, threshold, a) <==> Steady(a)
  {
    hide After, Rowed;
    if t :| t in a.tables.touched && t !in a.tables.checkpoints {
      assert t in a.tables.touched.Keys && t !in a.tables.checkpoints.Keys;
      if Exact(a) { SweepOfRow(s, threshold, a, t); }
    } else {
      NoRowToSpare(a.tables);
      if Exact(a) {
        forall wake: Sweeper.Wake ensures Exact(After(s, threshold, a, Sweep(wake))) {
          SweepKeepsSteady(s, threshold, a, wake);
        }
      }
    }
  }

  lemma SteadyIsRowed(tb: Tables)
    requires SteadyTables(tb)
    ensures Rowed(tb)
  {}

  lemma ApplyKeepsRowed(tb: Tables, op: Op)
    requires Rowed(tb) && (Touching(op).Some? || op.DeleteThread? || op.AList? || op.AGetTuple?)
    ensures Rowed(Apply(tb, op))
  {
    hide Trunc;
  }

  lemma {:induction false} StreamKeepsRowed(tb: Tables, t: string, ops: seq<StreamOp>)
    requires Rowed(tb) && t != ""
    ensures Rowed(Streamed(tb, t, ops))
  {
    hide Apply, Rowed;
    if ops != [] {
      StreamKeepsRowed(tb, t, ops[..|ops| - 1]);
      ApplyKeepsRowed(Streamed(tb, t, ops[..|ops| - 1]), OpOf(t, ops[|ops| - 1]));
    }
  }

  lemma AnsweredKeepsRowed(s: Settings, a: App, req: TurnRequest, t: string, turnN: nat, env: Env)
    requires Rowed(a.tables) && t != ""
    ensures Rowed(Answered(s, a, req, t, turnN, env).0.tables)
  {
    hide Rowed, Streamed, AfterGet, AfterSet, Lookup, KeyOf, LastSentinel, KeyFromHeader;
    StreamKeepsRowed(a.tables, t, env.stream.ops);
  }

  /** Every request leaves every checkpointed thread with a row. */
  lemma AfterIsRowed(s: Settings, threshold: int, a: App, r: Request)
    requires Rowed(a.tables) && FreshId(a, r)
    ensures Rowed(After(s, threshold, a, r).tables)
  {
    hide Rowed, Apply, Answered, MessageCount, Latest, Sweeper.Evicted;
    match r
    case Turn(req, env) =>
      if req.sessionId.None? {
        AnsweredKeepsRowed(s, a, req, env.uuid, 0, env);
      } else {
        var t := req.sessionId.value;
        ApplyKeepsRowed(a.tables, AGetTuple(Config(Some(t)), env.firstRead));
        var a1 := Read(a, t, env.firstRead);
        ApplyKeepsRowed(a1.tables, AGetTuple(Config(Some(t)), env.secondRead));
        if Latest(a.tables, t).Some? {
          RowedHasNoEmpty(a.tables, t);
          AnsweredKeepsRowed(s, Read(a1, t, env.secondRead), req, t, MessageCount(a1.tables, t), env);
        }
      }
    case Done(t, at, fails) =>
      ApplyKeepsRowed(a.tables, AGetTuple(Config(Some(t)), at));
      WithoutIsRowed(Read(a, t, at).tables, {t});
      assert Delete(Read(a, t, at).tables, t) == Sweeper.Without(Read(a, t, at).tables, {t});
    case Sweep(wake) => WithoutIsRowed(a.tables, Sweeper.Evicted(a.tables, threshold, wake));
  }

  lemma RowedHasNoEmpty(tb: Tables, t: string)
    requires Rowed(tb) && Latest(tb, t).Some?
    ensures t != ""
  {}

  lemma WithoutIsRowed(tb: Tables, gone: set<string>)
    requires Rowed(tb)
    ensures Rowed(Sweeper.Without(tb, gone))
  {
    assert (tb.checkpoints - gone).Keys == tb.checkpoints.Keys - gone;
    assert (tb.touched - gone).Keys == tb.touched.Keys - gone;
  }

  /** In terms of the gauge alone: a request leaves it exact for good exactly when it is polite. */
  lemma GaugeExactForGoodExactly(s: Settings, threshold: int, a: App, r: Request)
    requires Steady(a) && FreshId(a, r)
    ensures ExactForGood(s, threshold, After(s, threshold, a, r)) <==> Polite(s, a, r)
  {
    hide After, ExactForGood, Polite, Rowed, SteadyTables, FreshId;
    SteadyIsRowed(a.tables);
    AfterIsRowed(s, threshold, a, r);
    SteadyExactly(s, threshold, After(s, threshold, a, r));
    SteadyAfterExactly(s, threshold, a, r);
  }

  // ---- What the hypotheses are for ----

  function UnknownTurn(t: string, at: real): Request {
    Turn(TurnRequest(Some(t), "hello", None), Env("", at, at, at, Stream([], [], Finished), at))
  }

  lemma PhantomIsSwept(s: Settings, threshold: int, a: App, t: string, at: real, scan: real)
    requires a.tables == EmptyTables().(touched := map[t := Trunc(at)]) && a.counts.activeSessions == 0
    requires Trunc(at) < Trunc(scan) - threshold
    ensures var a1 := After(s, threshold, a, Sweep(Sweeper.Wake(scan, {})));
            a1.counts.activeSessions == -1 && a1.tables == EmptyTables()
  {
    hide Trunc;
    assert Sweeper.Evicted(a.tables, threshold, Sweeper.Wake(scan, {})) == {t};
  }

  /** A request naming an unknown id is refused, but leaves a touched row without a checkpoint; when the
      sweeper removes that row it counts a session that never was. */
  lemma UnknownIdDrainsGauge(s: Settings, threshold: int, t: string, at: real, scan: real)
    requires t != "" && Trunc(at) < Trunc(scan) - threshold
    ensures var a1 := After(s, threshold, EmptyApp(), UnknownTurn(t, at));
            && AfterTurn(s, EmptyApp(), UnknownTurn(t, at).req, UnknownTurn(t, at).env).1 == NotFound
            && a1.tables.checkpoints == map[]
            && After(s, threshold, a1, Sweep(Sweeper.Wake(scan, {}))).counts.activeSessions == -1
  {
    hide Trunc;
    var a1 := After(s, threshold, EmptyApp(), UnknownTurn(t, at));
    assert a1.tables == EmptyTables().(touched := map[t := Trunc(at)]);
    PhantomIsSwept(s, threshold, a1, t, at, scan);
  }

  /** `/done` on an unknown id is acknowledged and leaves the same row. */
  lemma UnknownDoneLeavesRow(t: string, at: real, fails: bool)
    requires t != ""
    ensures var a1 := AfterDone(EmptyApp(), t, at, fails);
            a1.tables == EmptyTables().(touched := map[t := Trunc(at)]) && a1.counts.activeSessions == 0
  {
    hide Trunc;
  }

  /** A new turn that times out after its first checkpoint leaves a session the gauge never counted. */
  lemma TimedOutTurnLeaks(s: Settings, uuid: string, message: string, c: Checkpoint, at: real)
    requires uuid != ""
    ensures var req, env := TurnRequest(None, message, None), Env(uuid, at, at, at, Stream([Saved(c, at)], [],
        TimedOut), at);
            var (a1, response) := AfterTurn(s, EmptyApp(), req, env);
            response == LLMTimeout && a1.counts.activeSessions == 0 && uuid in a1.tables.checkpoints
  {
    hide Trunc, KeyFromTuple;
    assert [Saved(c, at)][..0] == [];
  }

  // ---- Replay ----

  /** The request is let through to the cache lookup: it opens a session, or its session has a checkpoint. */
  predicate PassesCheck(a: App, req: TurnRequest) {
    req.sessionId.Some? ==> Latest(a.tables, req.sessionId.value).Some?
  }

  /** The cache key a request derives. */
  function DerivedKey(s: Settings, a: App, req: TurnRequest, env: Env): string {
    match req.sessionId
    case None => KeyOf(s, req, env.uuid, 0)
    case Some(t) => KeyOf(s, req, t, MessageCount(a.tables, t))
  }

  lemma ReadKeepsCheckpoints(a: App, t: string, at: real)
    ensures var a1 := Read(a, t, at);
            && a1.tables.checkpoints == a.tables.checkpoints && a1.tables.writes == a.tables.writes
            && a1.cache == a.cache && a1.counts == a.counts
            && Latest(a1.tables, t) == Latest(a.tables, t)
  {
    hide Trunc;
  }

  /** The state in which a request that passes the check reaches the lookup. */
  function AtLookup(a: App, req: TurnRequest, env: Env): App {
    match req.sessionId
    case None => a
    case Some(t) => Read(Read(a, t, env.firstRead), t, env.secondRead)
  }

  lemma AtLookupKeeps(a: App, req: TurnRequest, env: Env)
    ensures var b := AtLookup(a, req, env);
            b.tables.checkpoints == a.tables.checkpoints && b.tables.writes == a.tables.writes
            && b.cache == a.cache && b.counts == a.counts
  {
    hide Read;
    if req.sessionId.Some? {
      ReadKeepsCheckpoints(a, req.sessionId.value, env.firstRead);
      ReadKeepsCheckpoints(Read(a, req.sessionId.value, env.firstRead), req.sessionId.value, env.secondRead);
    }
  }

  function ThreadFor(req: TurnRequest, env: Env): string {
    if req.sessionId.Some? then req.sessionId.value else env.uuid
  }

  function TurnNumber(a: App, req: TurnRequest): nat {
    if req.sessionId.Some? then MessageCount(a.tables, req.sessionId.value) else 0
  }

  lemma PassedTurn(s: Settings, a: App, req: TurnRequest, env: Env)
    requires PassesCheck(a, req)
    ensures AfterTurn(s, a, req, env) == Answered(s, AtLookup(a, req, env), req, ThreadFor(req, env), TurnNumber(a,
        req), env)
    ensures DerivedKey(s, a, req, env) == KeyOf(s, req, ThreadFor(req, env), TurnNumber(a, req))
  {
    hide Read, Answered, KeyOf;
    if req.sessionId.Some? { ReadKeepsCheckpoints(a, req.sessionId.value, env.firstRead); }
  }

  /** Any later request that derives the key of a live entry and passes the session check gets the
      stored reply, and leaves the checkpoints, the gauge and the turn counters as they were. */
  lemma StoredReplyIsReplayed(s: Settings, a: App, req: TurnRequest, env: Env, reply: Reply)
    requires PassesCheck(a, req) && Lookup(a.cache, DerivedKey(s, a, req, env), env.lookup) == Some(reply)
    ensures var (b, response) := AfterTurn(s, a, req, env);
            && response == Ok(reply)
            && b.tables.checkpoints == a.tables.checkpoints && b.tables.writes == a.tables.writes
            && b.counts.activeSessions == a.counts.activeSessions
            && b.counts.turnsRunning == a.counts.turnsRunning && b.counts.turnsDone == a.counts.turnsDone
  {
    hide AtLookup, AfterGet, Lookup, KeyOf, PassesCheck, DerivedKey, TurnNumber, ThreadFor, KeyFromHeader, AfterTurn;
    PassedTurn(s, a, req, env);
    AtLookupKeeps(a, req, env);
  }

  /** A turn that runs the graph stores its reply under the key it derived. */
  lemma ExecutedReplyIsStored(s: Settings, a: App, req: TurnRequest, env: Env, now: real)
    requires PassesCheck(a, req) && Lookup(a.cache, DerivedKey(s, a, req, env), env.lookup) == None
    requires env.stream.ending == Finished && now < env.store + s.ttl as real
    ensures var (b, response) := AfterTurn(s, a, req, env);
            response.Ok? && Lookup(b.cache, DerivedKey(s, a, req, env), now) == Some(response.reply)
  {
    hide AtLookup, AfterGet, AfterSet, Lookup, KeyOf, PassesCheck, DerivedKey, TurnNumber, ThreadFor, KeyFromHeader,
         AfterTurn, Streamed, LastSentinel;
    PassedTurn(s, a, req, env);
    AtLookupKeeps(a, req, env);
    var key := DerivedKey(s, a, req, env);
    var reply := AfterTurn(s, a, req, env).1.reply;
    StoredIsFound(AfterGet(a.cache, key, env.lookup), key, reply, env.store, s.maxsize, s.ttl, now);
  }

  /** The cache operations of a request. */
  function Uses(s: Settings, a: App, r: Request): seq<Use> {
    if r.Turn? && PassesCheck(a, r.req) then
      var key := DerivedKey(s, a, r.req, r.env);
      var got := [Got(key, r.env.lookup)];
      var response := AfterTurn(s, a, r.req, r.env).1;
      if Lookup(a.cache, key, r.env.lookup).None? && r.env.stream.ending == Finished && response.Ok? then
        got + [Stored(key, response.reply, r.env.store)]
      else got
    else []
  }

  function AllUses(s: Settings, threshold: int, a: App, rs: seq<Request>): seq<Use> {
    if rs == [] then []
    else
      var front := rs[..|rs| - 1];
      AllUses(s, threshold, a, front) + Uses(s, AfterAll(s, threshold, a, front), rs[|rs| - 1])
  }

  lemma {:induction false} UsesInTurn(es: seq<Entry>, us: seq<Use>, vs: seq<Use>, maxsize: pos, ttl: nat)
    ensures AfterUses(es, us + vs, maxsize, ttl) == AfterUses(AfterUses(es, us, maxsize, ttl), vs, maxsize, ttl)
  {
    hide AfterUse;
    if vs == [] {
      assert us + vs == us;
    } else {
      assert (us + vs)[..|us + vs| - 1] == us + vs[..|vs| - 1];
      UsesInTurn(es, us, vs[..|vs| - 1], maxsize, ttl);
    }
  }

  lemma OneUse(es: seq<Entry>, u: Use, maxsize: pos, ttl: nat)
    ensures AfterUses(es, [u], maxsize, ttl) == AfterUse(es, u, maxsize, ttl)
  {
    assert [u][..0] == [];
  }

  lemma TwoUses(es: seq<Entry>, u: Use, v: Use, maxsize: pos, ttl: nat)
    ensures AfterUses(es, [u] + [v], maxsize, ttl) == AfterUse(AfterUse(es, u, maxsize, ttl), v, maxsize, ttl)
  {
    hide AfterUses, AfterUse;
    UsesInTurn(es, [u], [v], maxsize, ttl);
    OneUse(es, u, maxsize, ttl);
    OneUse(AfterUse(es, u, maxsize, ttl), v, maxsize, ttl);
  }

  lemma CacheOfRequest(s: Settings, threshold: int, a: App, r: Request)
    ensures After(s, threshold, a, r).cache == AfterUses(a.cache, Uses(s, a, r), s.maxsize, s.ttl)
  {
    hide AtLookup, AfterGet, AfterSet, Lookup, KeyOf, DerivedKey, TurnNumber, ThreadFor, KeyFromHeader,
         AfterUses, Streamed, LastSentinel;
    NoUses(a.cache, s.maxsize, s.ttl);
    if r.Turn? && PassesCheck(a, r.req) {
      hide PassesCheck;
      var key := DerivedKey(s, a, r.req, r.env);
      PassedTurn(s, a, r.req, r.env);
      AtLookupKeeps(a, r.req, r.env);
      hide AfterTurn;
      var response := AfterTurn(s, a, r.req, r.env).1;
      OneUse(a.cache, Got(key, r.env.lookup), s.maxsize, s.ttl);
      if response.Ok? {
        TwoUses(a.cache, Got(key, r.env.lookup), Stored(key, response.reply, r.env.store), s.maxsize, s.ttl);
      }
    }
  }

  lemma NoUses(es: seq<Entry>, maxsize: pos, ttl: nat)
    ensures AfterUses(es, [], maxsize, ttl) == es
  {}

  lemma {:induction false} CacheOfRun(s: Settings, threshold: int, a: App, rs: seq<Request>)
    ensures AfterAll(s, threshold, a, rs).cache == AfterUses(a.cache, AllUses(s, threshold, a, rs), s.maxsize, s.ttl)
  {
    hide After, Uses, AfterUse;
    if rs == [] {
      NoUses(a.cache, s.maxsize, s.ttl);
    } else {
      var front, r := rs[..|rs| - 1], rs[|rs| - 1];
      var b := AfterAll(s, threshold, a, front);
      CacheOfRun(s, threshold, a, front);
      CacheOfRequest(s, threshold, b, r);
      UsesInTurn(a.cache, AllUses(s, threshold, a, front), Uses(s, b, r), s.maxsize, s.ttl);
    }
  }

  /** Whatever requests and sweeps come in between, a request that derives the key of a reply stored less
      than `ttl` ago gets that reply, as long as fewer than `maxsize` other keys were used since. */
  lemma ReplayOverRuns(s: Settings, threshold: int, a: App, key: string, reply: Reply, stored: real,
                       rs: seq<Request>, others: set<string>, req: TurnRequest, env: Env)
    requires Distinct(a.cache) && |a.cache| <= s.maxsize && |others| < s.maxsize
    requires env.lookup < stored + s.ttl as real
    requires var a1 := a.(cache := AfterSet(a.cache, key, reply, stored, s.maxsize, s.ttl));
             var us := AllUses(s, threshold, a1, rs);
             && (forall j :: 0 <= j < |us| ==> TimeOf(us[j]) <= env.lookup)
             && (forall j :: 0 <= j < |us| ==> (us[j].key == key ==> us[j].Got?) && (us[j].key != key ==>
                 us[j].key in others))
             && PassesCheck(AfterAll(s, threshold, a1, rs), req)
             && DerivedKey(s, AfterAll(s, threshold, a1, rs), req, env) == key
    ensures var a1 := a.(cache := AfterSet(a.cache, key, reply, stored, s.maxsize, s.ttl));
            AfterTurn(s, AfterAll(s, threshold, a1, rs), req, env).1 == Ok(reply)
  {
    hide Distinct, AfterSet, AfterUses, AllUses, PassesCheck, DerivedKey, AfterAll, AfterTurn, Lookup;
    var a1 := a.(cache := AfterSet(a.cache, key, reply, stored, s.maxsize, s.ttl));
    CacheOfRun(s, threshold, a1, rs);
    ReplyIsReplayed(a.cache, key, reply, stored, others, AllUses(s, threshold, a1, rs), env.lookup, s.maxsize, s.ttl);
    StoredReplyIsReplayed(s, AfterAll(s, threshold, a1, rs), req, env, reply);
  }

  // ---- Which requests share a key ----

  lemma InternalKeysExactly(s: Settings, a: App, ra: TurnRequest, ea: Env, b: App, rb: TurnRequest, eb: Env)
    requires Injective(s.hash) && KeyFromHeader(ra.header).None? && KeyFromHeader(rb.header).None?
    requires '\0' !in ThreadFor(ra, ea) && '\0' !in ThreadFor(rb, eb)
    ensures DerivedKey(s, a, ra, ea) == DerivedKey(s, b, rb, eb)
            <==> (ThreadFor(ra, ea) == ThreadFor(rb, eb) && ra.message == rb.message
                  && TurnNumber(a, ra) == TurnNumber(b, rb))
  {
    hide MessageCount, KeyText, KeyFromHeader;
    if DerivedKey(s, a, ra, ea) == DerivedKey(s, b, rb, eb) {
      KeysDiffer(s.hash, ThreadFor(ra, ea), ra.message, TurnNumber(a, ra), ThreadFor(rb, eb), rb.message,
                 TurnNumber(b, rb));
    }
  }

  /** What a request's key stands for: the header's text, or the hash of its session, message and message count. */
  function Spelled(s: Settings, a: App, req: TurnRequest, env: Env): string {
    s.hash(KeyText(ThreadFor(req, env), req.message, TurnNumber(a, req)))
  }

  /** Two requests share a key exactly when: both send usable headers, with the same text; neither does, and session,
      message and message count agree; or one sends a header that spells out the other's hash. */
  lemma KeysAgreeExactly(s: Settings, a: App, ra: TurnRequest, ea: Env, b: App, rb: TurnRequest, eb: Env)
    requires Injective(s.hash)
    requires KeyFromHeader(ra.header).None? ==> '\0' !in ThreadFor(ra, ea)
    requires KeyFromHeader(rb.header).None? ==> '\0' !in ThreadFor(rb, eb)
    ensures DerivedKey(s, a, ra, ea) == DerivedKey(s, b, rb, eb)
            <==> match (KeyFromHeader(ra.header), KeyFromHeader(rb.header))
                 case (Some(_), Some(_)) => ra.header == rb.header
                 case (Some(key), None) => key == Spelled(s, b, rb, eb)
                 case (None, Some(key)) => key == Spelled(s, a, ra, ea)
                 case (None, None) =>
                   ThreadFor(ra, ea) == ThreadFor(rb, eb) && ra.message == rb.message
                   && TurnNumber(a, ra) == TurnNumber(b, rb)
  {
    hide MessageCount, KeyText, MatchesKey;
    if KeyFromHeader(ra.header).None? && KeyFromHeader(rb.header).None? {
      InternalKeysExactly(s, a, ra, ea, b, rb, eb);
    }
  }

  /** The hash is written as 32 lower-case hexadecimal digits. */
  ghost predicate HexHash(hash: string -> string) {
    forall x :: |hash(x)| == 32 && forall i :: 0 <= i < 32 ==> '0' <= hash(x)[i] <= '9' || 'a' <= hash(x)[i] <= 'f'
  }

  /** The mixed case does occur: every internal key is a usable header, and a request that sends it as one shares the
      entry of the request that derived it, whatever its own session and message. */
  lemma HeaderCanSpellKey(s: Settings, a: App, ra: TurnRequest, ea: Env, b: App, rb: TurnRequest, eb: Env)
    requires HexHash(s.hash) && KeyFromHeader(rb.header).None? && ra.header == Some(DerivedKey(s, b, rb, eb))
    ensures KeyFromHeader(ra.header) == ra.header && DerivedKey(s, a, ra, ea) == DerivedKey(s, b, rb, eb)
  {
    hide MessageCount, KeyText;
    assert DerivedKey(s, b, rb, eb) == Spelled(s, b, rb, eb);
    HexIsKey(s.hash, KeyText(ThreadFor(rb, eb), rb.message, TurnNumber(b, rb)));
  }

  lemma HexIsKey(hash: string -> string, x: string)
    requires HexHash(hash)
    ensures MatchesKey(hash(x))
  {
    var h := hash(x);
    assert |h| == 32;
    forall i | 0 <= i < 32 ensures KeyChar(h[i]) { assert '0' <= h[i] <= '9' || 'a' <= h[i] <= 'f'; }
  }

  /** A client that retries its opening request with the same key, 8 to 128 letters, digits, underscores and hyphens,
      gets the first reply within the lifetime, whatever message it sends: no second session, nothing run. */
  lemma RetriedOpeningReplays(s: Settings, a: App, req: TurnRequest, env: Env, again: TurnRequest, env': Env, b: App,
                              response: Response)
    requires req.sessionId.None? && again.sessionId.None? && again.header == req.header
    requires req.header.Some? && IsKey(Line(req.header.value))
    requires Lookup(a.cache, req.header.value, env.lookup) == None
    requires env.stream.ending == Finished && env'.lookup < env.store + s.ttl as real
    requires (b, response) == AfterTurn(s, a, req, env)
    ensures response.Ok? && AfterTurn(s, b, again, env').1 == response
    ensures var c := AfterTurn(s, b, again, env').0;
            && c.tables == b.tables && c.counts.activeSessions == b.counts.activeSessions
            && c.counts.turnsRunning == b.counts.turnsRunning && c.counts.turnsDone == b.counts.turnsDone
  {
    HeaderKeyExactly(req.header.value);
    hide IsKey, Line, KeyFromHeader, Lookup, AfterTurn;
    assert DerivedKey(s, b, again, env') == req.header.value == DerivedKey(s, a, req, env);
    ExecutedReplyIsStored(s, a, req, env, env'.lookup);
    StoredReplyIsReplayed(s, b, again, env', response.reply);
    ReplayedOpening(s, b, again, env');
  }

  lemma ReplayedOpening(s: Settings, a: App, req: TurnRequest, env: Env)
    requires req.sessionId.None? && Lookup(a.cache, DerivedKey(s, a, req, env), env.lookup).Some?
    ensures AfterTurn(s, a, req, env).0.tables == a.tables
  {
    hide KeyOf, Lookup, AfterGet, KeyFromHeader;
  }

  // ---- The message count of checkpoints without messages ----

  /** No checkpoint of any thread has a `messages` channel. */
  predicate Messageless(tb: Tables) {
    forall t, i :: t in tb.checkpoints && 0 <= i < |tb.checkpoints[t]| ==> "messages" !in tb.checkpoints[t][i].channels
  }

  /** The graph saves no checkpoint with one. */
  predicate SavesNone(ops: seq<StreamOp>) {
    forall i :: 0 <= i < |ops| && ops[i].Saved? ==> "messages" !in ops[i].checkpoint.channels
  }

  lemma NoMessagesCounted(tb: Tables, t: string)
    requires Messageless(tb)
    ensures MessageCount(tb, t) == 0
  {}

  lemma OpKeepsMessageless(tb: Tables, t: string, op: StreamOp)
    requires Messageless(tb) && (op.Saved? ==> "messages" !in op.checkpoint.channels)
    ensures Messageless(Apply(tb, OpOf(t, op)))
  {
    hide Trunc;
    var tb1 := Apply(tb, OpOf(t, op));
    if op.Saved? {
      assert tb1.checkpoints == tb.checkpoints[t := Rows(tb.checkpoints, t) + [op.checkpoint]];
    } else {
      assert tb1.checkpoints == tb.checkpoints;
    }
  }

  lemma {:induction false} StreamKeepsMessageless(tb: Tables, t: string, ops: seq<StreamOp>)
    requires Messageless(tb) && SavesNone(ops)
    ensures Messageless(Streamed(tb, t, ops))
  {
    hide Apply, Messageless;
    if ops != [] {
      var front, op := ops[..|ops| - 1], ops[|ops| - 1];
      assert ops[|ops| - 1] == op;
      StreamKeepsMessageless(tb, t, front);
      OpKeepsMessageless(Streamed(tb, t, front), t, op);
    }
  }

  lemma SameCheckpointsMessageless(tb: Tables, tb1: Tables)
    requires Messageless(tb) && tb1.checkpoints == tb.checkpoints
    ensures Messageless(tb1)
  {}

  lemma TurnKeepsMessageless(s: Settings, a: App, req: TurnRequest, env: Env)
    requires Messageless(a.tables) && SavesNone(env.stream.ops)
    ensures Messageless(AfterTurn(s, a, req, env).0.tables)
  {
    hide Messageless, SavesNone, Streamed, AfterGet, AfterSet, Lookup, KeyOf, LastSentinel, KeyFromHeader, Read,
         MessageCount, Latest;
    AtLookupKeeps(a, req, env);
    var b := AtLookup(a, req, env);
    SameCheckpointsMessageless(a.tables, b.tables);
    StreamKeepsMessageless(b.tables, ThreadFor(req, env), env.stream.ops);
    if req.sessionId.Some? {
      ReadKeepsCheckpoints(a, req.sessionId.value, env.firstRead);
      SameCheckpointsMessageless(a.tables, Read(a, req.sessionId.value, env.firstRead).tables);
    }
  }

  lemma RequestKeepsMessageless(s: Settings, threshold: int, a: App, r: Request)
    requires Messageless(a.tables) && (r.Turn? ==> SavesNone(r.env.stream.ops))
    ensures Messageless(After(s, threshold, a, r).tables)
  {
    hide AfterTurn, SavesNone, Sweeper.Evicted, Read, Latest;
    match r
    case Turn(req, env) => TurnKeepsMessageless(s, a, req, env);
    case Done(t, at, fails) => ReadKeepsCheckpoints(a, t, at);
    case Sweep(wake) =>
  }

  /** Over every run in which the graph saves no `messages`, the turn number of every request is 0. */
  lemma {:induction false} TurnNumberIsZero(s: Settings, threshold: int, apps: seq<App>, rs: seq<Request>, n: nat,
                                            req: TurnRequest)
    requires IsRun(s, threshold, apps, rs) && Messageless(apps[0].tables) && n <= |rs|
    requires forall i :: 0 <= i < |rs| && rs[i].Turn? ==> SavesNone(rs[i].env.stream.ops)
    ensures Messageless(apps[n].tables) && TurnNumber(apps[n], req) == 0
  {
    hide After, Messageless, SavesNone, MessageCount;
    if n > 0 {
      TurnNumberIsZero(s, threshold, apps, rs, n - 1, req);
      assert apps[(n - 1) + 1] == After(s, threshold, apps[n - 1], rs[n - 1]);
      RequestKeepsMessageless(s, threshold, apps[n - 1], rs[n - 1]);
    }
    if req.sessionId.Some? { NoMessagesCounted(apps[n].tables, req.sessionId.value); }
  }

  lemma KeyOfRepeated(s: Settings, a: App, b: App, req: TurnRequest, env: Env, env': Env)
    requires req.sessionId.Some? && Messageless(a.tables) && Messageless(b.tables)
    ensures DerivedKey(s, b, req, env') == DerivedKey(s, a, req, env)
  {
    hide Messageless, KeyOf, MessageCount;
    NoMessagesCounted(a.tables, req.sessionId.value);
    NoMessagesCounted(b.tables, req.sessionId.value);
  }

  lemma {:induction false} StreamKeepsThread(tb: Tables, t: string, ops: seq<StreamOp>)
    requires Latest(tb, t).Some?
    ensures Latest(Streamed(tb, t, ops), t).Some?
  {
    hide Trunc;
    if ops != [] { StreamKeepsThread(tb, t, ops[..|ops| - 1]); }
  }

  /** A user who repeats a message in a session whose checkpoints have no `messages` gets the first answer again,
      although the graph has moved on: the second request runs nothing. */
  lemma RepeatedMessageReplays(s: Settings, a: App, req: TurnRequest, env: Env, again: Env, b: App, response: Response)
    requires req.sessionId.Some? && PassesCheck(a, req) && Messageless(a.tables) && SavesNone(env.stream.ops)
    requires Lookup(a.cache, DerivedKey(s, a, req, env), env.lookup) == None
    requires env.stream.ending == Finished && again.lookup < env.store + s.ttl as real
    requires (b, response) == AfterTurn(s, a, req, env)
    ensures AfterTurn(s, b, req, again).1 == response && response.Ok?
    ensures AfterTurn(s, b, req, again).0.tables.checkpoints == b.tables.checkpoints
  {
    hide Messageless, SavesNone, Lookup, DerivedKey, AfterTurn, PassesCheck;
    TurnKeepsMessageless(s, a, req, env);
    KeyOfRepeated(s, a, b, req, env, again);
    ExecutedReplyIsStored(s, a, req, env, again.lookup);
    StillPasses(s, a, req, env);
    StoredReplyIsReplayed(s, b, req, again, response.reply);
  }

  /** A user who sends a new session's opening message again, as the answer to its first question, gets that question
      again: the session opened with the same id, message and turn number. */
  lemma RepeatedOpeningReplays(s: Settings, a: App, req: TurnRequest, env: Env, again: TurnRequest, env': Env, b: App,
                               response: Response)
    requires req.sessionId.None? && Messageless(a.tables)
    requires SavesNone(env.stream.ops) && HasSave(env.stream.ops)
    requires Lookup(a.cache, DerivedKey(s, a, req, env), env.lookup) == None
    requires env.stream.ending == Finished && env'.lookup < env.store + s.ttl as real
    requires (b, response) == AfterTurn(s, a, req, env)
    requires again == TurnRequest(Some(env.uuid), req.message, req.header)
    ensures AfterTurn(s, b, again, env').1 == response && response.Ok?
    ensures AfterTurn(s, b, again, env').0.tables.checkpoints == b.tables.checkpoints
  {
    hide Messageless, SavesNone, HasSave, Lookup, AfterTurn, KeyText, MessageCount, Latest;
    TurnKeepsMessageless(s, a, req, env);
    NoMessagesCounted(b.tables, env.uuid);
    assert DerivedKey(s, b, again, env') == DerivedKey(s, a, req, env);
    ExecutedReplyIsStored(s, a, req, env, env'.lookup);
    OpenedHasCheckpoint(s, a, req, env);
    StoredReplyIsReplayed(s, b, again, env', response.reply);
  }

  /** A new turn that runs the graph, however its stream ends, leaves a session to resume if the graph saved. */
  lemma OpenedHasCheckpoint(s: Settings, a: App, req: TurnRequest, env: Env)
    requires req.sessionId.None? && HasSave(env.stream.ops)
    requires Lookup(a.cache, DerivedKey(s, a, req, env), env.lookup) == None
    ensures Latest(AfterTurn(s, a, req, env).0.tables, env.uuid).Some?
  {
    hide KeyOf, Lookup, AfterGet, AfterSet, LastSentinel, Streamed, Latest, KeyFromHeader, HasSave;
    SavedIsFound(a.tables, env.uuid, env.stream.ops);
  }

  lemma {:induction false} SavedIsFound(tb: Tables, t: string, ops: seq<StreamOp>)
    requires HasSave(ops)
    ensures Latest(Streamed(tb, t, ops), t).Some?
  {
    hide Trunc, HasSave;
    assert ops != [] by { NoOpsNoSave(ops); }
    HasSaveLast(ops);
    if HasSave(ops[..|ops| - 1]) { SavedIsFound(tb, t, ops[..|ops| - 1]); }
  }

  lemma StillPasses(s: Settings, a: App, req: TurnRequest, env: Env)
    requires req.sessionId.Some? && PassesCheck(a, req)
    requires Lookup(a.cache, DerivedKey(s, a, req, env), env.lookup) == None && env.stream.ending == Finished
    ensures PassesCheck(AfterTurn(s, a, req, env).0, req)
  {
    hide AfterTurn, DerivedKey, KeyOf, Lookup, AfterGet, AfterSet, LastSentinel, Streamed, Read, Latest, KeyFromHeader;
    var t := req.sessionId.value;
    PassedTurn(s, a, req, env);
    AtLookupKeeps(a, req, env);
    var c := AtLookup(a, req, env);
    SameLatest(a.tables, c.tables, t);
    StreamKeepsThread(c.tables, t, env.stream.ops);
  }

  lemma SameLatest(tb: Tables, tb1: Tables, t: string)
    requires tb1.checkpoints == tb.checkpoints
    ensures Latest(tb1, t) == Latest(tb, t)
  {}
}
