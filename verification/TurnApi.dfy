/** src/server/turn_api.py: the /turn and /done handlers, one request at a time. */
module TurnApi {
  import opened PyText
  import opened CheckpointFactory
  import opened Idempotency
  import M = Metrics
  import Sweeper

  type pos = n: nat | n > 0 witness 1

  datatype Settings = Settings(maxsize: pos, ttl: nat, hash: string -> string)

  /** The state the handlers share. */
  datatype App = App(tables: Tables, cache: seq<Entry>, counts: M.Counts)

  datatype TurnRequest = TurnRequest(sessionId: Option<string>, message: string, header: Option<string>)

  /** A call the graph makes on its checkpointer while it streams. */
  datatype StreamOp = Loaded(at: real) | Saved(checkpoint: Checkpoint, at: real) | SavedWrite(write: string, at: real)

  /** A streamed chunk: its two sentinel flags, and the texts a sentinel carries. */
  datatype Chunk = Chunk(awaiting: bool, done: bool, lastQuestion: string, finalAnswer: string)

  datatype Ending = Finished | TimedOut | Failed

  datatype Stream = Stream(ops: seq<StreamOp>, chunks: seq<Chunk>, ending: Ending)

  /** What one turn meets: a fresh id, the clock at each step, and the graph's stream. */
  datatype Env = Env(uuid: string, firstRead: real, secondRead: real, lookup: real, stream: Stream, store: real)

  datatype Response = Ok(reply: Reply) | NotFound | LLMTimeout | ServerError

  // ---- What the handlers do ----

  function OpOf(thread: string, op: StreamOp): Op {
    match op
    case Loaded(at) => AGetTuple(Config(Some(thread)), at)
    case Saved(c, at) => APut(Config(Some(thread)), c, at)
    case SavedWrite(w, at) => APutWrites(Config(Some(thread)), w, at)
  }

  function Streamed(tb: Tables, thread: string, ops: seq<StreamOp>): Tables {
    if ops == [] then tb
    else Apply(Streamed(tb, thread, ops[..|ops| - 1]), OpOf(thread, ops[|ops| - 1]))
  }

  /** The reply and state of the last sentinel among the chunks. */
  function LastSentinel(chunks: seq<Chunk>): (string, bool) {
    if chunks == [] then ("", false)
    else
      var c := chunks[|chunks| - 1];
      if c.awaiting then (c.lastQuestion, false)
      else if c.done then (c.finalAnswer, true)
      else LastSentinel(chunks[..|chunks| - 1])
  }

  function Read(a: App, thread: string, at: real): App {
    a.(tables := Apply(a.tables, AGetTuple(Config(Some(thread)), at)))
  }

  /** `channel_values.get("messages", [])` */
  function Messages(c: Checkpoint): seq<string> {
    if "messages" in c.channels then c.channels["messages"] else []
  }

  function MessageCount(tb: Tables, thread: string): nat {
    match Latest(tb, thread)
    case Some(c) => |Messages(c)|
    case None => 0
  }

  function KeyOf(s: Settings, req: TurnRequest, thread: string, turnN: nat): string {
    match KeyFromHeader(req.header)
    case Some(key) => key
    case None => KeyFromTuple(s.hash, thread, req.message, turnN)
  }

  function CountHit(c: M.Counts, fromHeader: bool): M.Counts {
    if fromHeader then c.(hitsHeader := c.hitsHeader + 1) else c.(hitsInternal := c.hitsInternal + 1)
  }

  function CountTurn(c: M.Counts, done: bool, isNew: bool): M.Counts {
    var c1 := if done then c.(turnsDone := c.turnsDone + 1) else c.(turnsRunning := c.turnsRunning + 1);
    if isNew then c1.(activeSessions := c1.activeSessions + 1) else c1
  }

  /** Streaming the graph, and on success counting the turn and storing the reply. */
  function Executed(s: Settings, a: App, isNew: bool, thread: string, turnN: nat, key: string, env: Env): (App,
                    Response) {
    var a1 := a.(tables := Streamed(a.tables, thread, env.stream.ops));
    match env.stream.ending
    case TimedOut => (a1, LLMTimeout)
    case Failed => (a1, ServerError)
    case Finished =>
      var (text, done) := LastSentinel(env.stream.chunks);
      var reply := Reply(thread, text, done, turnN);
      (a1.(counts := CountTurn(a.counts, done, isNew), cache := AfterSet(a.cache, key, reply, env.store, s.maxsize,
          s.ttl)),
       Ok(reply))
  }

  /** From the cache lookup on. */
  function Answered(s: Settings, a: App, req: TurnRequest, thread: string, turnN: nat, env: Env): (App, Response) {
    var key := KeyOf(s, req, thread, turnN);
    var a1 := a.(cache := AfterGet(a.cache, key, env.lookup));
    match Lookup(a.cache, key, env.lookup)
    case Some(reply) => (a1.(counts := CountHit(a.counts, KeyFromHeader(req.header).Some?)), Ok(reply))
    case None => Executed(s, a1, req.sessionId.None?, thread, turnN, key, env)
  }

  /** The whole of `handle_turn`. */
  function AfterTurn(s: Settings, a: App, req: TurnRequest, env: Env): (App, Response) {
    match req.sessionId
    case None => Answered(s, a, req, env.uuid, 0, env)
    case Some(thread) =>
      var a1 := Read(a, thread, env.firstRead);
      if Latest(a.tables, thread).None? then (a1, NotFound)
      else Answered(s, Read(a1, thread, env.secondRead), req, thread, MessageCount(a1.tables, thread), env)
  }

  /** The whole of `handle_done`. */
  function AfterDone(a: App, thread: string, at: real, fails: bool): App {
    var a1 := Read(a, thread, at);
    var a2 := if Latest(a.tables, thread).Some? && !fails
              then a1.(tables := Delete(a1.tables, thread),
                  counts := a1.counts.(activeSessions := a1.counts.activeSessions - 1))
              else a1;
    a2.(counts := a2.counts.(doneTotal := a2.counts.doneTotal + 1))
  }

  // ---- The handlers ----

  class TurnApi {
    const checkpointer: TouchingCheckpointer
    const cache: IdempotencyCache
    const metrics: M.Metrics
    const settings: Settings

    ghost predicate Valid()
      reads this, checkpointer, cache
    {
      && checkpointer.Valid() && cache.Valid()
      && cache.maxsize == settings.maxsize && cache.ttl == settings.ttl
    }

    function State(): App
      reads checkpointer, cache, metrics
    {
      App(checkpointer.Contents(), cache.entries, metrics.Value())
    }

    constructor (checkpointer: TouchingCheckpointer, cache: IdempotencyCache, metrics: M.Metrics, settings: Settings)
      requires checkpointer.Valid() && cache.Valid()
      requires cache.maxsize == settings.maxsize && cache.ttl == settings.ttl
      ensures Valid() && this.checkpointer == checkpointer && this.cache == cache && this.metrics == metrics
    {
      this.checkpointer, this.cache, this.metrics, this.settings := checkpointer, cache, metrics, settings;
    }

    method HandleTurn(req: TurnRequest, env: Env) returns (response: Response)
      requires Valid()
      modifies checkpointer, cache, metrics
      ensures Valid()
      ensures (State(), response) == AfterTurn(settings, old(State()), req, env)
    {
      hide Apply, Replay, Answered, Latest;
      if req.sessionId.None? {
        response := Answer(req, env.uuid, 0, env);
        return;
      }
      var thread := req.sessionId.value;
      var first := checkpointer.AGetTuple(Config(Some(thread)), env.firstRead);
      if first.value.None? {
        return NotFound;
      }
      var second := checkpointer.AGetTuple(Config(Some(thread)), env.secondRead);
      var turnN := CountMessages(second.value);
      response := Answer(req, thread, turnN, env);
    }

    static method CountMessages(tuple: Option<Checkpoint>) returns (turnN: nat)
      ensures turnN == match tuple case Some(c) => |Messages(c)| case None => 0
    {
      if tuple.Some? {
        var messages := Messages(tuple.value);
        turnN := |messages|;
      } else {
        turnN := 0;
      }
    }

    /** The rest of `handle_turn`, once the thread and the turn number are known. */
    method Answer(req: TurnRequest, thread: string, turnN: nat, env: Env) returns (response: Response)
      requires Valid()
      modifies checkpointer, cache, metrics
      ensures Valid()
      ensures (State(), response) == Answered(settings, old(State()), req, thread, turnN, env)
    {
      hide Apply, Replay, Executed, AfterGet, Lookup, KeyFromHeader, KeyFromTuple;
      var keyFromHeader := KeyFromHeader(req.header);
      var key := if keyFromHeader.Some? then keyFromHeader.value
                 else KeyFromTuple(settings.hash, thread, req.message, turnN);
      var cached := cache.Get(key, env.lookup);
      if cached.Some? {
        if keyFromHeader.Some? {
          metrics.hitsHeader := metrics.hitsHeader + 1;
        } else {
          metrics.hitsInternal := metrics.hitsInternal + 1;
        }
        return Ok(cached.value);
      }
      response := Execute(req.sessionId.None?, thread, turnN, key, env);
    }

    /** The stream under its timeout, the metrics and the cache. */
    method Execute(isNew: bool, thread: string, turnN: nat, key: string, env: Env) returns (response: Response)
      requires Valid()
      modifies checkpointer, cache, metrics
      ensures Valid()
      ensures (State(), response) == Executed(settings, old(State()), isNew, thread, turnN, key, env)
    {
      hide Apply, Replay, Streamed, LastSentinel, AfterSet;
      RunGraph(thread, env.stream.ops);
      if env.stream.ending == TimedOut {
        return LLMTimeout;
      }
      if env.stream.ending == Failed {
        return ServerError;
      }
      var reply, finalState := CollectStream(env.stream.chunks);
      if finalState {
        metrics.turnsDone := metrics.turnsDone + 1;
      } else {
        metrics.turnsRunning := metrics.turnsRunning + 1;
      }
      if isNew {
        metrics.activeSessions := metrics.activeSessions + 1;
      }
      var responseData := Reply(thread, reply, finalState, turnN);
      cache.Set(key, responseData, env.store);
      return Ok(responseData);
    }

    /** The graph's calls on the injected checkpointer. */
    method RunGraph(thread: string, ops: seq<StreamOp>)
      requires Valid()
      modifies checkpointer
      ensures Valid()
      ensures checkpointer.Contents() == Streamed(old(checkpointer.Contents()), thread, ops)
    {
      hide Apply, Replay;
      var i := 0;
      while i < |ops|
        invariant 0 <= i <= |ops| && Valid()
        invariant checkpointer.Contents() == Streamed(old(checkpointer.Contents()), thread, ops[..i])
      {
        match ops[i] {
          case Loaded(at) => var _ := checkpointer.AGetTuple(Config(Some(thread)), at);
          case Saved(c, at) => var _ := checkpointer.APut(Config(Some(thread)), c, at);
          case SavedWrite(w, at) => var _ := checkpointer.APutWrites(Config(Some(thread)), w, at);
        }
        assert ops[..i + 1][..i] == ops[..i];
        i := i + 1;
      }
      assert ops[..i] == ops;
    }

    /** `_collect_stream`: the last sentinel decides the reply and the state. */
    static method CollectStream(chunks: seq<Chunk>) returns (collectedReply: string, detectedDone: bool)
      ensures (collectedReply, detectedDone) == LastSentinel(chunks)
    {
      collectedReply, detectedDone := "", false;
      for i := 0 to |chunks|
        invariant (collectedReply, detectedDone) == LastSentinel(chunks[..i])
      {
        var chunk := chunks[i];
        if chunk.awaiting {
          collectedReply, detectedDone := chunk.lastQuestion, false;
        } else if chunk.done {
          collectedReply, detectedDone := chunk.finalAnswer, true;
        }
        assert chunks[..i + 1][..i] == chunks[..i];
      }
      assert chunks[..|chunks|] == chunks;
    }

    method HandleDone(thread: string, at: real, fails: bool) returns (acknowledged: bool)
      requires Valid()
      modifies checkpointer, metrics
      ensures Valid() && acknowledged
      ensures State() == AfterDone(old(State()), thread, at, fails)
    {
      hide Apply, Replay;
      var tuple := checkpointer.AGetTuple(Config(Some(thread)), at);
      var sessionExisted := tuple.value.Some?;
      if sessionExisted && !fails {
        checkpointer.ADeleteThread(thread);
        metrics.activeSessions := metrics.activeSessions - 1;
      }
      metrics.doneTotal := metrics.doneTotal + 1;
      return true;
    }
  }
}
