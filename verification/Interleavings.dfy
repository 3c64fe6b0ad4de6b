/** The server as a transition system: /turn, /done and the sweeper interleaving at every await. */
module Interleavings {
  import opened PyText
  import opened CheckpointFactory
  import opened Idempotency
  import opened TurnApi
  import opened ServerConfig
  import M = Metrics

  // ---- States ----

  /** How far a /turn request has come: before each of its awaits. */
  datatype Stage =
    | Routing
    | FirstTouch(found: bool)
    | Counting
    | SecondTouch(count: nat)
    | LookingUp(turnN: nat)
    | Streaming(key: string, number: nat, started: real)
    | Storing(target: string, reply: Reply)

  /** A /turn request; `since` is its own latest touch before streaming, or its arrival if it opens a session. */
  datatype Ask = Ask(req: TurnRequest, thread: string, stage: Stage, since: real)

  datatype CloseStage = Reading | Touching(found: bool) | Deleting

  /** A /done request. */
  datatype Close = Close(thread: string, stage: CloseStage)

  datatype Sweep = Asleep | Clocked(now: int) | Sweeping(todo: set<string>, deleted: nat)

  datatype World = World(clock: real, app: App, asks: map<nat, Ask>, closes: map<nat, Close>, sweep: Sweep)

  /** The configured timeout and threshold, and how long a request can stand between its touch and its stream. */
  datatype Limits = Limits(timeout: int, threshold: int, lag: nat)

  datatype Event =
    | Wait(to: real)
    | Arrive(id: nat, req: TurnRequest, uuid: string)
    | ReadFirst(id: nat)
    | TouchFirst(id: nat)
    | ReadSecond(id: nat)
    | TouchSecond(id: nat)
    | LookUp(id: nat)
    | GraphTouch(id: nat)
    | GraphSave(id: nat, checkpoint: Checkpoint)
    | GraphWrite(id: nat, write: string)
    | Finish(id: nat, text: string, done: bool)
    | Abort(id: nat)
    | StoreReply(id: nat)
    | ArriveDone(id: nat, thread: string)
    | ReadDone(id: nat)
    | TouchDone(id: nat)
    | DeleteDone(id: nat, fails: bool)
    | WakeUp
    | Scan
    | DeleteStale(stale: string, fails: bool)
    | EndTick

  // ---- Steps ----

  /** The turn has touched its thread, or opened it, and its graph may still run. Between its first read and its
      first touch it is not in flight. */
  predicate InFlight(ask: Ask) {
    ask.stage.Counting? || ask.stage.SecondTouch? || ask.stage.LookingUp? || ask.stage.Streaming?
  }

  /** `wait_for` ends a stream in time, and a request reaches its stream within the lag. */
  predicate OnTime(l: Limits, ask: Ask, at: real) {
    if ask.stage.Streaming? then at <= ask.stage.started + Positive(l.timeout) as real
    else InFlight(ask) ==> at <= ask.since + l.lag as real
  }

  /** An id that `uuid4` makes: in no table, and not among the threads a sweep is about to delete. */
  predicate FreshIn(w: World, uuid: string) {
    && uuid !in w.app.tables.touched && uuid !in w.app.tables.checkpoints
    && (w.sweep.Sweeping? ==> uuid !in w.sweep.todo)
  }

  predicate Enabled(l: Limits, w: World, e: Event) {
    match e
    case Wait(to) => w.clock <= to && forall id :: id in w.asks ==> OnTime(l, w.asks[id], to)
    case Arrive(id, req, uuid) => id !in w.asks && (req.sessionId.None? ==> FreshIn(w, uuid))
    case ReadFirst(id) => id in w.asks && w.asks[id].stage.Routing?
    case TouchFirst(id) => id in w.asks && w.asks[id].stage.FirstTouch?
    case ReadSecond(id) => id in w.asks && w.asks[id].stage.Counting?
    case TouchSecond(id) => id in w.asks && w.asks[id].stage.SecondTouch?
    case LookUp(id) => id in w.asks && w.asks[id].stage.LookingUp?
    case GraphTouch(id) => id in w.asks && w.asks[id].stage.Streaming?
    case GraphSave(id, _) => id in w.asks && w.asks[id].stage.Streaming?
    case GraphWrite(id, _) => id in w.asks && w.asks[id].stage.Streaming?
    case Finish(id, _, _) => id in w.asks && w.asks[id].stage.Streaming?
    case Abort(id) => id in w.asks
    case StoreReply(id) => id in w.asks && w.asks[id].stage.Storing?
    case ArriveDone(id, _) => id !in w.closes
    case ReadDone(id) => id in w.closes && w.closes[id].stage.Reading?
    case TouchDone(id) => id in w.closes && w.closes[id].stage.Touching?
    case DeleteDone(id, _) => id in w.closes && w.closes[id].stage.Deleting?
    case WakeUp => w.sweep.Asleep?
    case Scan => w.sweep.Clocked?
    case DeleteStale(t, _) => w.sweep.Sweeping? && t in w.sweep.todo
    case EndTick => w.sweep.Sweeping? && w.sweep.todo == {}
  }

  function Touched(tb: Tables, t: string, at: real): Tables {
    if t == "" then tb else Touch(tb, t, at)
  }

  /** The tables after a step. */
  function NextTables(w: World, e: Event): Tables {
    var tb := w.app.tables;
    match e
    case TouchFirst(id) => if id in w.asks then Touched(tb, w.asks[id].thread, w.clock) else tb
    case TouchSecond(id) => if id in w.asks then Touched(tb, w.asks[id].thread, w.clock) else tb
    case GraphTouch(id) => if id in w.asks then Touched(tb, w.asks[id].thread, w.clock) else tb
    case GraphSave(id, c) => if id in w.asks then Save(tb, w.asks[id].thread, c) else tb
    case GraphWrite(id, x) => if id in w.asks then SaveWrite(tb, w.asks[id].thread, x) else tb
    case TouchDone(id) => if id in w.closes then Touched(tb, w.closes[id].thread, w.clock) else tb
    case DeleteDone(id, fails) => if id in w.closes && !fails then Delete(tb, w.closes[id].thread) else tb
    case DeleteStale(t, fails) => if fails then tb else Delete(tb, t)
    case _ => tb
  }

  function KeyFor(s: Settings, ask: Ask): string
    requires ask.stage.LookingUp?
  {
    KeyOf(s, ask.req, ask.thread, ask.stage.turnN)
  }

  function NextCache(s: Settings, w: World, e: Event): seq<Entry> {
    match e
    case LookUp(id) =>
      if id in w.asks && w.asks[id].stage.LookingUp? then AfterGet(w.app.cache, KeyFor(s, w.asks[id]), w.clock)
          else w.app.cache
    case StoreReply(id) =>
      if id in w.asks && w.asks[id].stage.Storing? then
        AfterSet(w.app.cache, w.asks[id].stage.target, w.asks[id].stage.reply, w.clock, s.maxsize, s.ttl)
      else w.app.cache
    case _ => w.app.cache
  }

  /** What the lookup of a request finds. */
  function FoundBy(s: Settings, w: World, id: nat): Option<Reply> {
    if id in w.asks && w.asks[id].stage.LookingUp? then Lookup(w.app.cache, KeyFor(s, w.asks[id]), w.clock) else None
  }

  function NextCounts(s: Settings, w: World, e: Event): M.Counts {
    var c := w.app.counts;
    match e
    case LookUp(id) => if FoundBy(s, w, id).Some? then CountHit(c, KeyFromHeader(w.asks[id].req.header).Some?) else c
    case Finish(id, _, done) => if id in w.asks then CountTurn(c, done, w.asks[id].req.sessionId.None?) else c
    case TouchDone(id) =>
      if id in w.closes && w.closes[id].stage == Touching(false) then c.(doneTotal := c.doneTotal + 1) else c
    case DeleteDone(_, fails) =>
      c.(doneTotal := c.doneTotal + 1, activeSessions := c.activeSessions - (if fails then 0 else 1))
    case DeleteStale(_, fails) => c.(activeSessions := c.activeSessions - (if fails then 0 else 1))
    case EndTick =>
      c.(sweeperRuns := c.sweeperRuns + 1,
         sweeperDeleted := c.sweeperDeleted + if w.sweep.Sweeping? then w.sweep.deleted else 0)
    case _ => c
  }

  function MoveTo(asks: map<nat, Ask>, id: nat, stage: Stage): map<nat, Ask>
    requires id in asks
  {
    asks[id := asks[id].(stage := stage)]
  }

  function MoveAt(asks: map<nat, Ask>, id: nat, stage: Stage, at: real): map<nat, Ask>
    requires id in asks
  {
    asks[id := asks[id].(stage := stage, since := at)]
  }

  function NextAsks(l: Limits, s: Settings, w: World, e: Event): map<nat, Ask>
    requires Enabled(l, w, e)
  {
    match e
    case Arrive(id, req, uuid) =>
      w.asks[id := match req.sessionId
                   case None => Ask(req, uuid, LookingUp(0), w.clock)
                   case Some(t) => Ask(req, t, Routing, w.clock)]
    case ReadFirst(id) => MoveTo(w.asks, id, FirstTouch(Latest(w.app.tables, w.asks[id].thread).Some?))
    case TouchFirst(id) =>
      if w.asks[id].stage.found then MoveAt(w.asks, id, Counting, w.clock) else w.asks - {id}
    case ReadSecond(id) => MoveTo(w.asks, id, SecondTouch(MessageCount(w.app.tables, w.asks[id].thread)))
    case TouchSecond(id) => MoveAt(w.asks, id, LookingUp(w.asks[id].stage.count), w.clock)
    case LookUp(id) =>
      if FoundBy(s, w, id).Some? then w.asks - {id}
      else MoveTo(w.asks, id, Streaming(KeyFor(s, w.asks[id]), w.asks[id].stage.turnN, w.clock))
    case Finish(id, text, done) =>
      var a := w.asks[id];
      MoveTo(w.asks, id, Storing(a.stage.key, Reply(a.thread, text, done, a.stage.number)))
    case Abort(id) => w.asks - {id}
    case StoreReply(id) => w.asks - {id}
    case _ => w.asks
  }

  function NextCloses(l: Limits, w: World, e: Event): map<nat, Close>
    requires Enabled(l, w, e)
  {
    match e
    case ArriveDone(id, t) => w.closes[id := Close(t, Reading)]
    case ReadDone(id) =>
      w.closes[id := w.closes[id].(stage := Touching(Latest(w.app.tables, w.closes[id].thread).Some?))]
    case TouchDone(id) =>
      if w.closes[id].stage.found then w.closes[id := w.closes[id].(stage := Deleting)] else w.closes - {id}
    case DeleteDone(id, _) => w.closes - {id}
    case _ => w.closes
  }

  function NextSweep(l: Limits, w: World, e: Event): Sweep
    requires Enabled(l, w, e)
  {
    match e
    case WakeUp => Clocked(Trunc(w.clock))
    case Scan => Sweeping(Stale(w.app.tables, w.sweep.now, l.threshold), 0)
    case DeleteStale(t, fails) => Sweeping(w.sweep.todo - {t}, w.sweep.deleted + if fails then 0 else 1)
    case EndTick => Asleep
    case _ => w.sweep
  }

  function Next(l: Limits, s: Settings, w: World, e: Event): World
    requires Enabled(l, w, e)
  {
    World(if e.Wait? then e.to else w.clock,
          App(NextTables(w, e), NextCache(s, w, e), NextCounts(s, w, e)),
          NextAsks(l, s, w, e), NextCloses(l, w, e), NextSweep(l, w, e))
  }

  // ---- Who changes what ----

  /** A request goes through the handler's awaits one after the other. */
  lemma StagesInOrder(l: Limits, s: Settings, w: World, e: Event, id: nat)
    requires Enabled(l, w, e) && id in w.asks && id in Next(l, s, w, e).asks
    ensures var a, b := w.asks[id], Next(l, s, w, e).asks[id];
            && b.thread == a.thread && b.req == a.req
            && (b.stage == a.stage
                || match a.stage
                   case Routing => b.stage.FirstTouch?
                   case FirstTouch(found) => found && b.stage == Counting
                   case Counting => b.stage.SecondTouch?
                   case SecondTouch(count) => b.stage == LookingUp(count)
                   case LookingUp(n) => b.stage.Streaming? && b.stage.number == n && b.stage.started == w.clock
                   case Streaming(key, n, _) => b.stage.Storing? && b.stage.target == key && b.stage.reply.turnN == n
                   case Storing(_, _) => false)
  {
    hide NextTables, NextCache, NextCounts, NextCloses, NextSweep, KeyFor, FoundBy, Latest, MessageCount;
  }

  /** It is over when its session is unknown, its reply was cached, its reply is stored, or it is aborted. */
  lemma StagesEnd(l: Limits, s: Settings, w: World, e: Event, id: nat)
    requires Enabled(l, w, e) && id in w.asks && id !in Next(l, s, w, e).asks
    ensures e == Abort(id) || w.asks[id].stage == FirstTouch(false) || w.asks[id].stage.Storing?
            || (w.asks[id].stage.LookingUp? && FoundBy(s, w, id).Some?)
  {
    hide NextTables, NextCache, NextCounts, NextCloses, NextSweep, KeyFor, FoundBy, Latest, MessageCount;
  }

  /** A turn is in flight without a break from its first touch, or its arrival, to the end of its stream. */
  lemma FlightIsUnbroken(l: Limits, s: Settings, w: World, e: Event, id: nat)
    requires Enabled(l, w, e) && id in w.asks && id in Next(l, s, w, e).asks
    ensures var a, b := w.asks[id], Next(l, s, w, e).asks[id];
            && (InFlight(a) ==> InFlight(b) || b.stage.Storing?)
            && (!InFlight(a) && InFlight(b) ==> e == TouchFirst(id))
  {
    hide NextTables, NextCache, NextCounts, NextCloses, NextSweep, KeyFor, FoundBy, Latest, MessageCount;
  }

  lemma ClosesInOrder(l: Limits, s: Settings, w: World, e: Event, id: nat)
    requires Enabled(l, w, e) && id in w.closes
    ensures var closes1 := Next(l, s, w, e).closes;
            if id !in closes1 then w.closes[id].stage == Touching(false) || w.closes[id].stage == Deleting
            else closes1[id].thread == w.closes[id].thread
                 && (closes1[id].stage == w.closes[id].stage
                     || match w.closes[id].stage
                        case Reading => closes1[id].stage.Touching?
                        case Touching(found) => found && closes1[id].stage == Deleting
                        case Deleting => false)
  {
    hide NextTables, NextCache, NextCounts, NextAsks, NextSweep, Latest;
  }

  /** No request is about to touch the thread or streams on it, and no /done or sweep is about to delete it. */
  predicate LeftAlone(w: World, t: string) {
    && (forall id :: id in w.asks && w.asks[id].thread == t ==>
          !w.asks[id].stage.FirstTouch? && !w.asks[id].stage.SecondTouch? && !w.asks[id].stage.Streaming?)
    && (forall id :: id in w.closes && w.closes[id].thread == t ==> w.closes[id].stage == Reading)
    && (w.sweep.Sweeping? ==> t !in w.sweep.todo)
  }

  /** The rows of a thread that is left alone do not change. */
  lemma OnlyTheseChangeRows(l: Limits, s: Settings, w: World, e: Event, t: string)
    requires Enabled(l, w, e) && LeftAlone(w, t)
    ensures var tb, tb1 := w.app.tables, Next(l, s, w, e).app.tables;
            && Rows(tb1.checkpoints, t) == Rows(tb.checkpoints, t) && Rows(tb1.writes, t) == Rows(tb.writes, t)
            && (t in tb1.touched <==> t in tb.touched) && (t in tb.touched ==> tb1.touched[t] == tb.touched[t])
  {
    hide NextAsks, NextCache, NextCounts, NextCloses, NextSweep, Trunc;
  }

  /** A session opens on a thread that no table knows. */
  lemma OpensFresh(l: Limits, w: World, id: nat, req: TurnRequest, uuid: string)
    requires Enabled(l, w, Arrive(id, req, uuid)) && req.sessionId.None?
    ensures uuid !in w.app.tables.checkpoints && uuid !in w.app.tables.touched
  {}

  // ---- Runs ----

  predicate Possible(l: Limits, s: Settings, w: World, es: seq<Event>)
    decreases |es|, 0
  {
    es == [] || (Possible(l, s, w, es[..|es| - 1]) && Enabled(l, Reach(l, s, w, es[..|es| - 1]), es[|es| - 1]))
  }

  function Reach(l: Limits, s: Settings, w: World, es: seq<Event>): World
    requires Possible(l, s, w, es)
    decreases |es|, 1
  {
    if es == [] then w else Next(l, s, Reach(l, s, w, es[..|es| - 1]), es[|es| - 1])
  }

  /** A server that has just come up: whatever the store holds, nothing is under way. The empty id is never touched. */
  predicate Idle(w: World) {
    w.asks == map[] && w.closes == map[] && w.sweep == Asleep && "" !in w.app.tables.touched
  }

  // ---- The sweeper never finds a turn in flight ----

  /** A turn in flight has touched its thread no later than the row says, and is on time. */
  predicate Guarded(l: Limits, w: World, ask: Ask) {
    InFlight(ask) ==>
      && ask.since <= w.clock
      && (ask.thread in w.app.tables.touched ==> Trunc(ask.since) <= w.app.tables.touched[ask.thread])
      && (ask.stage.Streaming? ==> ask.since <= ask.stage.started <= ask.since + l.lag as real)
      && OnTime(l, ask, w.clock)
  }

  predicate Safe(l: Limits, w: World) {
    && (forall id :: id in w.asks ==> Guarded(l, w, w.asks[id]))
    && (w.sweep.Clocked? ==> w.sweep.now <= Trunc(w.clock))
    && "" !in w.app.tables.touched
  }

  lemma TruncMonotone(a: real, b: real)
    requires a <= b
    ensures Trunc(a) <= Trunc(b)
  {
    FloorMonotone(a, b);
    FloorMonotone(-b, -a);
  }

  /** Steps only ever move a row of the touch table forward, or remove it. */
  lemma RowsMoveForward(w: World, e: Event, t: string, since: real)
    requires since <= w.clock
    requires t in w.app.tables.touched ==> Trunc(since) <= w.app.tables.touched[t]
    ensures var tb := NextTables(w, e); t in tb.touched ==> Trunc(since) <= tb.touched[t]
  {
    hide Trunc;
    TruncMonotone(since, w.clock);
  }

  lemma GuardedStays(l: Limits, s: Settings, w: World, e: Event, ask: Ask)
    requires Enabled(l, w, e) && Guarded(l, w, ask)
    requires e.Wait? ==> OnTime(l, ask, e.to)
    ensures Guarded(l, Next(l, s, w, e), ask)
  {
    hide OnTime, NextTables, NextCache, NextCounts, NextAsks, NextCloses, NextSweep, Trunc;
    assert e.Wait? ==> w.clock <= e.to;
    hide Enabled;
    if InFlight(ask) { RowsMoveForward(w, e, ask.thread, ask.since); }
  }

  /** The request an event concerns is guarded after it. */
  lemma MovedIsGuarded(l: Limits, s: Settings, w: World, e: Event, id: nat)
    requires Enabled(l, w, e) && (id in w.asks ==> Guarded(l, w, w.asks[id])) && "" !in w.app.tables.touched
    requires id in NextAsks(l, s, w, e) && (id !in w.asks || NextAsks(l, s, w, e)[id] != w.asks[id])
    ensures Guarded(l, Next(l, s, w, e), NextAsks(l, s, w, e)[id])
  {
    hide Trunc, KeyFor, FoundBy, Latest, MessageCount, NextCache, NextCounts, NextCloses, NextSweep;
  }

  lemma StepIsSafe(l: Limits, s: Settings, w: World, e: Event)
    requires Enabled(l, w, e) && Safe(l, w)
    ensures Safe(l, Next(l, s, w, e))
  {
    var w1 := Next(l, s, w, e);
    forall id | id in w1.asks ensures Guarded(l, w1, w1.asks[id]) {
      StepGuards(l, s, w, e, id);
    }
    SweepClock(l, s, w, e);
    NeverEmpty(w, e);
  }

  lemma NeverEmpty(w: World, e: Event)
    requires "" !in w.app.tables.touched
    ensures "" !in NextTables(w, e).touched
  {
    hide Trunc;
  }

  lemma StepGuards(l: Limits, s: Settings, w: World, e: Event, id: nat)
    requires Enabled(l, w, e) && Safe(l, w) && id in NextAsks(l, s, w, e)
    ensures Guarded(l, Next(l, s, w, e), NextAsks(l, s, w, e)[id])
  {
    hide Guarded, NextAsks, OnTime, NextTables, NextCache, NextCounts, NextCloses, NextSweep;
    if id in w.asks && NextAsks(l, s, w, e)[id] == w.asks[id] {
      assert e.Wait? ==> OnTime(l, w.asks[id], e.to);
      hide Enabled;
      GuardedStays(l, s, w, e, w.asks[id]);
    } else {
      hide Enabled;
      MovedIsGuarded(l, s, w, e, id);
    }
  }

  lemma SweepClock(l: Limits, s: Settings, w: World, e: Event)
    requires Enabled(l, w, e) && Safe(l, w)
    ensures var w1 := Next(l, s, w, e); w1.sweep.Clocked? ==> w1.sweep.now <= Trunc(w1.clock)
  {
    hide Trunc, Guarded, NextTables, NextCache, NextCounts, NextAsks, NextCloses;
    if e.Wait? { TruncMonotone(w.clock, e.to); }
  }

  lemma {:induction false} RunIsSafe(l: Limits, s: Settings, w: World, es: seq<Event>)
    requires Idle(w) && Possible(l, s, w, es)
    ensures Safe(l, Reach(l, s, w, es))
  {
    hide Enabled, Next, Safe;
    if es == [] {
      IdleIsSafe(l, w);
    } else {
      RunIsSafe(l, s, w, es[..|es| - 1]);
      StepIsSafe(l, s, Reach(l, s, w, es[..|es| - 1]), es[|es| - 1]);
    }
  }

  lemma IdleIsSafe(l: Limits, w: World)
    requires Idle(w)
    ensures Safe(l, w)
  {}

  lemma GuardedIsNotStale(l: Limits, w: World, ask: Ask, now: int)
    requires Guarded(l, w, ask) && InFlight(ask) && now <= Trunc(w.clock)
    requires l.lag + Positive(l.timeout) <= l.threshold
    ensures ask.thread !in Stale(w.app.tables, now, l.threshold)
  {
    hide Trunc;
    assert w.clock <= ask.since + (l.lag + Positive(l.timeout)) as real;
    assert ask.since <= w.clock <= ask.since + l.threshold as real;
    TruncGap(ask.since, w.clock, l.threshold);
  }

  /** In every interleaving, the scan returns no thread with a turn in flight, when the threshold covers
      the lag and the timeout; both clock reads are truncated to whole seconds. */
  lemma ScanSparesTurns(l: Limits, s: Settings, w: World, es: seq<Event>)
    requires Idle(w) && l.lag + Positive(l.timeout) <= l.threshold
    requires Possible(l, s, w, es) && Reach(l, s, w, es).sweep.Clocked?
    ensures var w1 := Next(l, s, Reach(l, s, w, es), Scan);
            && w1.sweep.Sweeping?
            && forall id :: id in w1.asks && InFlight(w1.asks[id]) ==> w1.asks[id].thread !in w1.sweep.todo
  {
    hide Possible, Reach, Guarded, Trunc, Stale, InFlight, NextCache, NextCounts;
    RunIsSafe(l, s, w, es);
    var w0 := Reach(l, s, w, es);
    forall id | id in w0.asks && InFlight(w0.asks[id]) ensures w0.asks[id].thread !in Stale(w0.app.tables,
        w0.sweep.now, l.threshold) {
      GuardedIsNotStale(l, w0, w0.asks[id], w0.sweep.now);
    }
  }

  /** In particular for the settings the validator accepts: a threshold of five timeouts leaves four for
      the way to the stream. */
  lemma AcceptedSettingsSpareTurns(l: Limits, s: Settings, w: World, es: seq<Event>)
    requires Idle(w) && l.timeout >= 1 && Accepts(l.timeout, l.threshold) && l.lag <= 4 * l.timeout
    requires Possible(l, s, w, es) && Reach(l, s, w, es).sweep.Clocked?
    ensures var w1 := Next(l, s, Reach(l, s, w, es), Scan);
            && w1.sweep.Sweeping?
            && forall id :: id in w1.asks && InFlight(w1.asks[id]) ==> w1.asks[id].thread !in w1.sweep.todo
  {
    hide Possible, Reach, Next, InFlight;
    ScanSparesTurns(l, s, w, es);
  }

  // ---- What an eviction can hit ----

  lemma {:induction false} PrefixPossible(l: Limits, s: Settings, w: World, es: seq<Event>, n: nat)
    requires Possible(l, s, w, es) && n <= |es|
    ensures Possible(l, s, w, es[..n])
  {
    hide Enabled, Next;
    if n == |es| {
      assert es[..n] == es;
    } else {
      var front := es[..|es| - 1];
      assert front[..n] == es[..n];
      PrefixPossible(l, s, w, front, n);
    }
  }

  predicate FliesOn(w: World, id: nat, t: string) {
    id in w.asks && InFlight(w.asks[id]) && w.asks[id].thread == t
  }

  /** The step is the request's own touch of the thread. */
  predicate TouchesThread(w: World, e: Event, id: nat, t: string) {
    (e == TouchFirst(id) || e == TouchSecond(id)) && id in w.asks && w.asks[id].thread == t
  }

  /** One of the steps from the n-th on is. */
  predicate TouchedSince(l: Limits, s: Settings, w: World, es: seq<Event>, n: nat, id: nat, t: string)
    requires Possible(l, s, w, es)
  {
    |es| > n && (TouchesThread(Reach(l, s, w, es[..|es| - 1]), es[|es| - 1], id, t)
                 || TouchedSince(l, s, w, es[..|es| - 1], n, id, t))
  }

  /** The n-th step is a scan, and its tick has not ended since. */
  predicate InTickSince(es: seq<Event>, n: nat) {
    n < |es| && es[n] == Scan && forall k :: n < k < |es| ==> es[k] != EndTick
  }

  /** A turn gets in flight by touching its thread, or by opening it under a fresh id. */
  lemma EntersFlight(l: Limits, s: Settings, w: World, e: Event, id: nat, t: string)
    requires Enabled(l, w, e) && FliesOn(Next(l, s, w, e), id, t)
    ensures FliesOn(w, id, t) || TouchesThread(w, e, id, t) || (e.Arrive? && e.req.sessionId.None? && e.uuid == t)
  {
    hide NextTables, NextCache, NextCounts, NextCloses, NextSweep, KeyFor, FoundBy, Latest, MessageCount;
  }

  lemma TickGoesOn(l: Limits, s: Settings, w: World, e: Event)
    requires Enabled(l, w, e) && w.sweep.Sweeping? && e != EndTick
    ensures var w1 := Next(l, s, w, e); w1.sweep.Sweeping? && w1.sweep.todo <= w.sweep.todo
  {
    hide NextTables, NextCache, NextCounts, NextCloses, NextAsks, Stale;
  }

  lemma ArrivesElsewhere(l: Limits, w: World, e: Event, t: string)
    requires Enabled(l, w, e) && w.sweep.Sweeping? && t in w.sweep.todo && e.Arrive? && e.req.sessionId.None?
    ensures e.uuid != t
  {}

  /** While a tick deletes, every turn in flight on a thread still to be deleted has touched it since the scan. */
  lemma {:induction false} LateTurnsOnly(l: Limits, s: Settings, w: World, es: seq<Event>, n: nat, id: nat, t: string)
    requires Idle(w) && l.lag + Positive(l.timeout) <= l.threshold
    requires Possible(l, s, w, es) && InTickSince(es, n)
    ensures Reach(l, s, w, es).sweep.Sweeping?
    ensures t in Reach(l, s, w, es).sweep.todo && FliesOn(Reach(l, s, w, es), id, t) ==>
              TouchedSince(l, s, w, es, n + 1, id, t)
    decreases |es|
  {
    hide Enabled, Next, InFlight, FliesOn, TouchesThread, Idle;
    var front, e := es[..|es| - 1], es[|es| - 1];
    var w0 := Reach(l, s, w, front);
    if |es| == n + 1 {
      ClockedAtScan(l, w0);
      ScanSparesTurns(l, s, w, front);
      if FliesOn(Reach(l, s, w, es), id, t) { FliesOnAsk(Reach(l, s, w, es), id, t); }
    } else {
      assert front[n] == es[n] && forall k :: n < k < |front| ==> front[k] == es[k];
      LateTurnsOnly(l, s, w, front, n, id, t);
      TickGoesOn(l, s, w0, e);
      if t in Reach(l, s, w, es).sweep.todo && FliesOn(Reach(l, s, w, es), id, t) {
        EntersFlight(l, s, w0, e, id, t);
        if e.Arrive? && e.req.sessionId.None? { ArrivesElsewhere(l, w0, e, t); }
      }
    }
  }

  lemma ClockedAtScan(l: Limits, w: World)
    requires Enabled(l, w, Scan)
    ensures w.sweep.Clocked?
  {}

  lemma FliesOnAsk(w: World, id: nat, t: string)
    requires FliesOn(w, id, t)
    ensures id in w.asks && InFlight(w.asks[id]) && w.asks[id].thread == t
  {}

  /** In every interleaving, when a tick is about to delete a thread, that hits a turn in flight exactly when a turn
      touched the thread between the scan and now and is still in flight: the guarantee of the threshold covers
      everything up to the scan, and nothing after it. A turn whose first read has returned, and which has not
      written its touch yet, is not in flight here; it goes on to touch a thread that is gone. */
  lemma EvictionHitsExactly(l: Limits, s: Settings, w: World, es: seq<Event>, n: nat, t: string, fails: bool)
    requires Idle(w) && l.lag + Positive(l.timeout) <= l.threshold
    requires Possible(l, s, w, es) && InTickSince(es, n) && Enabled(l, Reach(l, s, w, es), DeleteStale(t, fails))
    ensures (exists id :: FliesOn(Reach(l, s, w, es), id, t))
            <==> (exists id :: FliesOn(Reach(l, s, w, es), id, t) && TouchedSince(l, s, w, es, n + 1, id, t))
  {
    hide Possible, Reach, FliesOn, TouchedSince, Idle, InTickSince;
    if id :| FliesOn(Reach(l, s, w, es), id, t) { LateTurnsOnly(l, s, w, es, n, id, t); }
  }

  /** A check at the deletion would close the gap: a thread whose row is still stale then has no turn in flight. */
  lemma StillStaleIsSafe(l: Limits, s: Settings, w: World, es: seq<Event>, id: nat, t: string)
    requires Idle(w) && l.lag + Positive(l.timeout) <= l.threshold && Possible(l, s, w, es)
    requires t in Stale(Reach(l, s, w, es).app.tables, Trunc(Reach(l, s, w, es).clock), l.threshold)
    ensures !FliesOn(Reach(l, s, w, es), id, t)
  {
    hide Possible, Reach, Guarded, Trunc, Stale, InFlight, Idle;
    RunIsSafe(l, s, w, es);
    var w1 := Reach(l, s, w, es);
    if FliesOn(w1, id, t) {
      assert Guarded(l, w1, w1.asks[id]);
      GuardedIsNotStale(l, w1, w1.asks[id], Trunc(w1.clock));
    }
  }

  // ---- The gauge ledger ----

  /** What a run did to sessions. */
  datatype Ledger = Ledger(answered: nat, closed: nat, swept: nat, created: nat, removed: nat)

  function CountIf(b: bool): nat { if b then 1 else 0 }

  /** One step's entries: a new session answered, a confirmed /done deletion, a sweeper deletion, a first
      checkpoint, a deletion that found one. */
  function Entries(w: World, e: Event): Ledger {
    Ledger(
      CountIf(e.Finish? && e.id in w.asks && w.asks[e.id].req.sessionId.None?),
      CountIf(e.DeleteDone? && !e.fails),
      CountIf(e.DeleteStale? && !e.fails),
      CountIf(e.GraphSave? && e.id in w.asks && w.asks[e.id].thread !in w.app.tables.checkpoints),
      CountIf((e.DeleteDone? && !e.fails && e.id in w.closes && w.closes[e.id].thread in w.app.tables.checkpoints)
              || (e.DeleteStale? && !e.fails && e.stale in w.app.tables.checkpoints)))
  }

  function Add(a: Ledger, b: Ledger): Ledger {
    Ledger(a.answered + b.answered, a.closed + b.closed, a.swept + b.swept, a.created + b.created,
        a.removed + b.removed)
  }

  function LedgerOf(l: Limits, s: Settings, w: World, es: seq<Event>): Ledger
    requires Possible(l, s, w, es)
  {
    if es == [] then Ledger(0, 0, 0, 0, 0)
    else Add(LedgerOf(l, s, w, es[..|es| - 1]), Entries(Reach(l, s, w, es[..|es| - 1]), es[|es| - 1]))
  }

  lemma StepBooksGauge(l: Limits, s: Settings, w: World, e: Event)
    requires Enabled(l, w, e)
    ensures var w1, x := Next(l, s, w, e), Entries(w, e);
            w1.app.counts.activeSessions == w.app.counts.activeSessions + x.answered - x.closed - x.swept
  {
    hide NextTables, NextCache, NextAsks, NextCloses, NextSweep, FoundBy, KeyFromHeader;
  }

  lemma Removing<T>(m: map<string, T>, t: string)
    ensures |m - {t}| == |m| - CountIf(t in m)
  {
    var rest := m - {t};
    assert rest.Keys == m.Keys - {t} && |rest| == |rest.Keys| && |m| == |m.Keys|;
    if t in m { assert m.Keys == rest.Keys + {t}; } else { assert m.Keys - {t} == m.Keys; }
  }

  lemma Inserting<T>(m: map<string, T>, t: string, x: T)
    ensures |m[t := x]| == |m| + CountIf(t !in m)
  {
    assert m[t := x].Keys == m.Keys + {t} && |m[t := x]| == |m[t := x].Keys| && |m| == |m.Keys|;
    if t in m { assert m.Keys + {t} == m.Keys; }
  }

  lemma StepBooksStore(l: Limits, s: Settings, w: World, e: Event)
    requires Enabled(l, w, e)
    ensures var w1, x := Next(l, s, w, e), Entries(w, e);
            |w1.app.tables.checkpoints| == |w.app.tables.checkpoints| + x.created - x.removed
  {
    hide NextTables, NextCache, NextCounts, NextAsks, NextCloses, NextSweep;
    match e
    case GraphSave(id, c) => SaveBooks(w, id, c);
    case DeleteDone(id, fails) => DoneBooks(w, id, fails);
    case DeleteStale(t, fails) => StaleBooks(w, t, fails);
    case _ => SameStore(w, e);
  }

  lemma SaveBooks(w: World, id: nat, c: Checkpoint)
    requires id in w.asks
    ensures |NextTables(w, GraphSave(id, c)).checkpoints|
            == |w.app.tables.checkpoints| + CountIf(w.asks[id].thread !in w.app.tables.checkpoints)
  {
    hide Rows;
    var m, t := w.app.tables.checkpoints, w.asks[id].thread;
    Inserting(m, t, Rows(m, t) + [c]);
  }

  lemma DeleteBooks(tb: Tables, t: string)
    ensures |Delete(tb, t).checkpoints| == |tb.checkpoints| - CountIf(t in tb.checkpoints)
  {
    Removing(tb.checkpoints, t);
  }

  lemma DoneBooks(w: World, id: nat, fails: bool)
    requires id in w.closes
    ensures |NextTables(w, DeleteDone(id, fails)).checkpoints|
            == |w.app.tables.checkpoints| - CountIf(!fails && w.closes[id].thread in w.app.tables.checkpoints)
  {
    hide Delete;
    assert NextTables(w, DeleteDone(id, fails))
        == if fails then w.app.tables else Delete(w.app.tables, w.closes[id].thread);
    hide NextTables;
    DeleteBooks(w.app.tables, w.closes[id].thread);
  }

  lemma StaleBooks(w: World, t: string, fails: bool)
    ensures |NextTables(w, DeleteStale(t, fails)).checkpoints|
            == |w.app.tables.checkpoints| - CountIf(!fails && t in w.app.tables.checkpoints)
  {
    hide Delete;
    DeleteBooks(w.app.tables, t);
  }

  lemma SameStore(w: World, e: Event)
    requires !e.GraphSave? && !e.DeleteDone? && !e.DeleteStale?
    ensures NextTables(w, e).checkpoints == w.app.tables.checkpoints
  {}

  /** In every run the gauge is what it was, plus new sessions answered, less confirmed /done deletions and
      sweeper deletions; and the store is what it was, plus first checkpoints, less deletions that found one. */
  lemma {:induction false} LedgerBalances(l: Limits, s: Settings, w: World, es: seq<Event>)
    requires Possible(l, s, w, es)
    ensures var w1, x := Reach(l, s, w, es), LedgerOf(l, s, w, es);
            w1.app.counts.activeSessions == w.app.counts.activeSessions + x.answered - x.closed - x.swept
    ensures var w1, x := Reach(l, s, w, es), LedgerOf(l, s, w, es);
            |w1.app.tables.checkpoints| == |w.app.tables.checkpoints| + x.created - x.removed
  {
    hide Enabled, Next, Entries;
    if es != [] {
      LedgerBalances(l, s, w, es[..|es| - 1]);
      var w0 := Reach(l, s, w, es[..|es| - 1]);
      StepBooksGauge(l, s, w0, es[|es| - 1]);
      StepBooksStore(l, s, w0, es[|es| - 1]);
    }
  }

  // ---- Executions of one key ----

  /** The step looks this key up. */
  predicate LooksUp(s: Settings, w: World, e: Event, key: string) {
    e.LookUp? && e.id in w.asks && w.asks[e.id].stage.LookingUp? && KeyFor(s, w.asks[e.id]) == key
  }

  /** The step looks this key up in vain, and so starts the graph for it. */
  predicate Executes(s: Settings, w: World, e: Event, key: string) {
    LooksUp(s, w, e, key) && FoundBy(s, w, e.id).None?
  }

  function Lookups(l: Limits, s: Settings, w: World, es: seq<Event>, key: string): nat
    requires Possible(l, s, w, es)
  {
    if es == [] then 0
    else Lookups(l, s, w, es[..|es| - 1], key)
         + CountIf(LooksUp(s, Reach(l, s, w, es[..|es| - 1]), es[|es| - 1], key))
  }

  function Executions(l: Limits, s: Settings, w: World, es: seq<Event>, key: string): nat
    requires Possible(l, s, w, es)
  {
    if es == [] then 0
    else Executions(l, s, w, es[..|es| - 1], key)
         + CountIf(Executes(s, Reach(l, s, w, es[..|es| - 1]), es[|es| - 1], key))
  }

  lemma {:induction false} ExecutionsAreLookups(l: Limits, s: Settings, w: World, es: seq<Event>, key: string)
    requires Possible(l, s, w, es)
    ensures Executions(l, s, w, es, key) <= Lookups(l, s, w, es, key)
  {
    hide Enabled, Next, LooksUp;
    if es != [] { ExecutionsAreLookups(l, s, w, es[..|es| - 1], key); }
  }

  /** The cache holds a reply under the key at least until `until`; keys used since are among `others`. */
  ghost predicate HoldsUntil(s: Settings, w: World, key: string, until: real, others: set<string>) {
    && |w.app.cache| <= s.maxsize && until <= w.clock + s.ttl as real
    && exists x: Entry :: HeldEntry(w.app.cache, x, key, until, others)
  }

  ghost predicate HeldEntry(es: seq<Entry>, x: Entry, key: string, until: real, others: set<string>) {
    x.key == key && until <= x.expires && Held(es, x, others)
  }

  /** The step stays within the time and uses no key but these. */
  predicate Keeps(s: Settings, w: World, e: Event, key: string, until: real, others: set<string>) {
    && w.clock < until
    && (e.LookUp? && e.id in w.asks && w.asks[e.id].stage.LookingUp? ==> KeyFor(s, w.asks[e.id]) in others + {key})
    && (e.StoreReply? && e.id in w.asks && w.asks[e.id].stage.Storing? ==> w.asks[e.id].stage.target in others + {key})
  }

  lemma StoreHolds(s: Settings, es: seq<Entry>, x: Entry, key: string, until: real, others: set<string>,
                   target: string, reply: Reply, now: real)
    requires HeldEntry(es, x, key, until, others) && |es| <= s.maxsize && |others| < s.maxsize
    requires now < until <= now + s.ttl as real && target in others + {key}
    ensures exists y: Entry :: HeldEntry(AfterSet(es, target, reply, now, s.maxsize, s.ttl), y, key, until, others)
    ensures |AfterSet(es, target, reply, now, s.maxsize, s.ttl)| <= s.maxsize
  {
    hide AfterSet, Distinct, HeldAt;
    HeldDistinct(es, x, others);
    SetKeepsValid(es, target, reply, now, s.maxsize, s.ttl);
    if target == key {
      StoredIsHeld(es, target, reply, now, others, s.maxsize, s.ttl);
      assert HeldEntry(AfterSet(es, target, reply, now, s.maxsize, s.ttl), Entry(target, reply, now + s.ttl as real),
                       key, until, others);
    } else {
      SetHolds(es, x, others, target, reply, now, s.maxsize, s.ttl);
      assert HeldEntry(AfterSet(es, target, reply, now, s.maxsize, s.ttl), x, key, until, others);
    }
  }

  lemma LookUpHolds(es: seq<Entry>, x: Entry, key: string, until: real, others: set<string>, got: string, now: real)
    requires HeldEntry(es, x, key, until, others) && got in others + {key}
    ensures HeldEntry(AfterGet(es, got, now), x, key, until, others) && |AfterGet(es, got, now)| == |es|
  {
    hide AfterGet, Distinct, HeldAt;
    HeldDistinct(es, x, others);
    GetKeepsValid(es, got, now);
    GetHolds(es, x, others, got, now);
  }

  lemma StepHolds(l: Limits, s: Settings, w: World, e: Event, key: string, until: real, others: set<string>)
    requires Enabled(l, w, e) && HoldsUntil(s, w, key, until, others) && Keeps(s, w, e, key, until, others)
    requires |others| < s.maxsize
    ensures HoldsUntil(s, Next(l, s, w, e), key, until, others)
  {
    hide HeldEntry, AfterGet, AfterSet, KeyFor, NextTables, NextCounts, NextAsks, NextCloses, NextSweep;
    var x: Entry :| HeldEntry(w.app.cache, x, key, until, others);
    match e
    case LookUp(id) => LookUpHolds(w.app.cache, x, key, until, others, KeyFor(s, w.asks[id]), w.clock);
    case StoreReply(id) =>
      StoreHolds(s, w.app.cache, x, key, until, others, w.asks[id].stage.target, w.asks[id].stage.reply, w.clock);
    case _ =>
  }

  lemma HeldKeyIsNotExecuted(s: Settings, w: World, e: Event, key: string, until: real, others: set<string>)
    requires HoldsUntil(s, w, key, until, others) && w.clock < until
    ensures !Executes(s, w, e, key)
  {
    hide Lookup, KeyFor, Held;
    var x: Entry :| HeldEntry(w.app.cache, x, key, until, others);
    HeldIsFound(w.app.cache, x, others, w.clock);
  }

  ghost predicate AllKeep(l: Limits, s: Settings, w: World, es: seq<Event>, key: string, until: real,
                          others: set<string>)
    requires Possible(l, s, w, es)
  {
    es == [] || (AllKeep(l, s, w, es[..|es| - 1], key, until, others)
                 && Keeps(s, Reach(l, s, w, es[..|es| - 1]), es[|es| - 1], key, until, others))
  }

  lemma {:induction false} NoExecutionWhileHeld(l: Limits, s: Settings, w: World, es: seq<Event>, key: string,
                                                until: real, others: set<string>)
    requires Possible(l, s, w, es) && HoldsUntil(s, w, key, until, others) && |others| < s.maxsize
    requires AllKeep(l, s, w, es, key, until, others)
    ensures Executions(l, s, w, es, key) == 0 && HoldsUntil(s, Reach(l, s, w, es), key, until, others)
  {
    hide Enabled, Next, Executes, HoldsUntil, Keeps;
    if es != [] {
      var front := es[..|es| - 1];
      NoExecutionWhileHeld(l, s, w, front, key, until, others);
      var w0 := Reach(l, s, w, front);
      assert w0.clock < until by { KeepsClock(s, w0, es[|es| - 1], key, until, others); }
      HeldKeyIsNotExecuted(s, w0, es[|es| - 1], key, until, others);
      StepHolds(l, s, w0, es[|es| - 1], key, until, others);
    }
  }

  lemma KeepsClock(s: Settings, w: World, e: Event, key: string, until: real, others: set<string>)
    requires Keeps(s, w, e, key, until, others)
    ensures w.clock < until
  {}

  /** Storing a reply holds its key for the whole lifetime of the entry. */
  lemma StoringHolds(l: Limits, s: Settings, w: World, id: nat, others: set<string>)
    requires Enabled(l, w, StoreReply(id)) && Distinct(w.app.cache) && |w.app.cache| <= s.maxsize
    ensures HoldsUntil(s, Next(l, s, w, StoreReply(id)), w.asks[id].stage.target, w.clock + s.ttl as real, others)
  {
    hide Distinct, AfterSet, NextTables, NextCounts, NextAsks, NextCloses, NextSweep, Held;
    var key, reply := w.asks[id].stage.target, w.asks[id].stage.reply;
    SetKeepsValid(w.app.cache, key, reply, w.clock, s.maxsize, s.ttl);
    StoredIsHeld(w.app.cache, key, reply, w.clock, others, s.maxsize, s.ttl);
    assert HeldEntry(Next(l, s, w, StoreReply(id)).app.cache, Entry(key, reply, w.clock + s.ttl as real), key,
                     w.clock + s.ttl as real, others);
  }

  predicate CacheOk(s: Settings, w: World) {
    Distinct(w.app.cache) && |w.app.cache| <= s.maxsize
  }

  lemma {:induction false} RunKeepsCache(l: Limits, s: Settings, w: World, es: seq<Event>)
    requires Possible(l, s, w, es) && CacheOk(s, w)
    ensures CacheOk(s, Reach(l, s, w, es))
  {
    hide Enabled, CacheOk, Next;
    if es != [] {
      RunKeepsCache(l, s, w, es[..|es| - 1]);
      StepKeepsCache(l, s, Reach(l, s, w, es[..|es| - 1]), es[|es| - 1]);
    }
  }

  lemma StepKeepsCache(l: Limits, s: Settings, w: World, e: Event)
    requires Enabled(l, w, e) && CacheOk(s, w)
    ensures CacheOk(s, Next(l, s, w, e))
  {
    hide Distinct, AfterGet, AfterSet, KeyFor, NextTables, NextCounts, NextAsks, NextCloses, NextSweep;
    match e
    case LookUp(id) => GetKeepsValid(w.app.cache, KeyFor(s, w.asks[id]), w.clock);
    case StoreReply(id) =>
      SetKeepsValid(w.app.cache, w.asks[id].stage.target, w.asks[id].stage.reply, w.clock, s.maxsize, s.ttl);
    case _ =>
  }

  /** The n-th step stores a reply under the key, which the cache then holds until `until`. */
  ghost predicate StoresAt(l: Limits, s: Settings, w: World, es: seq<Event>, n: nat, key: string, until: real) {
    && n < |es| && es[n].StoreReply? && Possible(l, s, w, es[..n])
    && var w0 := Reach(l, s, w, es[..n]);
       && es[n].id in w0.asks && w0.asks[es[n].id].stage.Storing? && w0.asks[es[n].id].stage.target == key
       && until == w0.clock + s.ttl as real
  }

  /** The steps behind the n-th stay within the time and use no key but these. */
  predicate KeepsAfter(l: Limits, s: Settings, w: World, es: seq<Event>, n: nat, key: string, until: real,
                       others: set<string>)
    requires Possible(l, s, w, es)
  {
    |es| <= n + 1 || (KeepsAfter(l, s, w, es[..|es| - 1], n, key, until, others)
                      && Keeps(s, Reach(l, s, w, es[..|es| - 1]), es[|es| - 1], key, until, others))
  }

  lemma StoreIsNoExecution(s: Settings, w: World, e: Event, key: string)
    requires e.StoreReply?
    ensures !Executes(s, w, e, key)
  {}

  lemma {:induction false} NoExecutionAfterStore(l: Limits, s: Settings, w: World, es: seq<Event>, n: nat, key: string,
                                                 until: real, others: set<string>)
    requires Possible(l, s, w, es) && CacheOk(s, w) && |others| < s.maxsize
    requires StoresAt(l, s, w, es, n, key, until) && KeepsAfter(l, s, w, es, n, key, until, others)
    ensures HoldsUntil(s, Reach(l, s, w, es), key, until, others)
    ensures Executions(l, s, w, es, key) == Executions(l, s, w, es[..n], key)
    decreases |es|
  {
    hide Next, Executes, HoldsUntil, Keeps, CacheOk;
    var front, e := es[..|es| - 1], es[|es| - 1];
    var w0 := Reach(l, s, w, front);
    assert Enabled(l, w0, e);
    hide Enabled;
    if |es| == n + 1 {
      assert es[..n] == front;
      RunKeepsCache(l, s, w, front);
      CacheOkParts(s, w0);
      StoringHolds(l, s, w0, e.id, others);
      StoreIsNoExecution(s, w0, e, key);
    } else {
      assert front[n] == es[n] && front[..n] == es[..n];
      NoExecutionAfterStore(l, s, w, front, n, key, until, others);
      assert w0.clock < until by { KeepsClock(s, w0, e, key, until, others); }
      HeldKeyIsNotExecuted(s, w0, e, key, until, others);
      StepHolds(l, s, w0, e, key, until, others);
    }
  }

  lemma CacheOkParts(s: Settings, w: World)
    requires CacheOk(s, w)
    ensures Distinct(w.app.cache) && |w.app.cache| <= s.maxsize
  {}

  /** However requests interleave, in a run whose n-th step stores a reply under a key, and whose later steps stay
      within the entry's lifetime and use fewer than `maxsize` other keys, the graph runs for that key at most once
      for each request that looked it up before the store. */
  lemma ExecutionsBeforeStore(l: Limits, s: Settings, w: World, es: seq<Event>, n: nat, key: string, until: real,
                              others: set<string>)
    requires Possible(l, s, w, es) && CacheOk(s, w) && |others| < s.maxsize
    requires StoresAt(l, s, w, es, n, key, until) && KeepsAfter(l, s, w, es, n, key, until, others)
    ensures Executions(l, s, w, es, key) <= Lookups(l, s, w, es[..n], key)
  {
    hide Possible, Reach, Executions, Lookups, KeepsAfter, HoldsUntil, CacheOk;
    NoExecutionAfterStore(l, s, w, es, n, key, until, others);
    ExecutionsAreLookups(l, s, w, es[..n], key);
  }
}
