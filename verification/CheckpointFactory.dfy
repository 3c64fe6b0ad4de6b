/** src/server/checkpoint_factory.py: the saver that records when each thread was last touched. */
module CheckpointFactory {
  import opened PyText

  /** One saved checkpoint: its channel values by channel name, each as the list of its items. */
  datatype Checkpoint = Checkpoint(channels: map<string, seq<string>>)

  /** A RunnableConfig: its thread id, None where it has none. */
  datatype Config = Config(threadId: Option<string>)

  /** The three sqlite tables, each keyed by thread id. */
  datatype Tables = Tables(checkpoints: map<string, seq<Checkpoint>>, writes: map<string, seq<string>>,
                           touched: map<string, int>)

  /** A result, or the KeyError the inner saver raises for a config without a thread id. */
  datatype Outcome<+T> = Done(value: T) | KeyError

  /** `int(x)` of a float. */
  function Trunc(x: real): int {
    if x < 0.0 then -(-x).Floor else x.Floor
  }

  function ThreadOf(config: Config): Option<string> {
    if config.threadId == Some("") then None else config.threadId
  }

  // ---- Operations on the tables ----

  function Rows<T>(m: map<string, seq<T>>, t: string): seq<T> {
    if t in m then m[t] else []
  }

  /** The latest checkpoint of a thread, as `aget_tuple` finds it. */
  function Latest(tb: Tables, t: string): Option<Checkpoint> {
    var rows := Rows(tb.checkpoints, t);
    if rows == [] then None else Some(rows[|rows| - 1])
  }

  function Touch(tb: Tables, t: string, at: real): Tables {
    tb.(touched := tb.touched[t := Trunc(at)])
  }

  function Save(tb: Tables, t: string, c: Checkpoint): Tables {
    tb.(checkpoints := tb.checkpoints[t := Rows(tb.checkpoints, t) + [c]])
  }

  function SaveWrite(tb: Tables, t: string, w: string): Tables {
    tb.(writes := tb.writes[t := Rows(tb.writes, t) + [w]])
  }

  function Delete(tb: Tables, t: string): Tables {
    Tables(tb.checkpoints - {t}, tb.writes - {t}, tb.touched - {t})
  }

  /** `list_stale`: the threads last touched before `now - threshold`. */
  function Stale(tb: Tables, now: int, threshold: int): set<string> {
    set t | t in tb.touched && tb.touched[t] < now - threshold
  }

  // ---- Histories ----

  /** A call on the saver; `at` is the clock when `_touch` reads it. */
  datatype Op =
    | AGet(config: Config, at: real)
    | AGetTuple(config: Config, at: real)
    | APut(config: Config, checkpoint: Checkpoint, at: real)
    | APutWrites(config: Config, write: string, at: real)
    | AList(config: Config)
    | Get(config: Config)
    | Put(config: Config, checkpoint: Checkpoint)
    | PutWrites(config: Config, write: string)
    | DeleteThread(thread: string)

  function EmptyTables(): Tables {
    Tables(map[], map[], map[])
  }

  /** What the call does to the tables of the bare inner saver: nothing is touched. */
  function Bare(tb: Tables, op: Op): Tables {
    match op
    case APut(config, c, _) => if config.threadId.Some? then Save(tb, config.threadId.value, c) else tb
    case Put(config, c) => if config.threadId.Some? then Save(tb, config.threadId.value, c) else tb
    case APutWrites(config, w, _) => if config.threadId.Some? then SaveWrite(tb, config.threadId.value, w) else tb
    case PutWrites(config, w) => if config.threadId.Some? then SaveWrite(tb, config.threadId.value, w) else tb
    case DeleteThread(t) => Tables(tb.checkpoints - {t}, tb.writes - {t}, tb.touched)
    case _ => tb
  }

  /** The thread and time an asynchronous get or put records. */
  function Touching(op: Op): Option<(string, real)> {
    match op
    case AGet(config, at) => if ThreadOf(config).Some? then Some((config.threadId.value, at)) else None
    case AGetTuple(config, at) => if ThreadOf(config).Some? then Some((config.threadId.value, at)) else None
    case APut(config, _, at) => if ThreadOf(config).Some? then Some((config.threadId.value, at)) else None
    case APutWrites(config, _, at) => if ThreadOf(config).Some? then Some((config.threadId.value, at)) else None
    case _ => None
  }

  function Apply(tb: Tables, op: Op): Tables {
    var tb1 := Bare(tb, op);
    if op.DeleteThread? then tb1.(touched := tb1.touched - {op.thread})
    else match Touching(op)
      case Some((t, at)) => Touch(tb1, t, at)
      case None => tb1
  }

  function Replay(history: seq<Op>): Tables {
    if history == [] then EmptyTables() else Apply(Replay(history[..|history| - 1]), history[|history| - 1])
  }

  function BareReplay(history: seq<Op>): Tables {
    if history == [] then EmptyTables() else Bare(BareReplay(history[..|history| - 1]), history[|history| - 1])
  }

  /** When a thread was last touched since its last deletion, looking back through the history. */
  function LastTouch(history: seq<Op>, t: string): Option<real> {
    if history == [] then None
    else
      var op := history[|history| - 1];
      if op == DeleteThread(t) then None
      else if Touching(op).Some? && Touching(op).value.0 == t then Some(Touching(op).value.1)
      else LastTouch(history[..|history| - 1], t)
  }

  /** After any sequence of calls the touch table holds the truncated time of every thread's latest
      touch since its last deletion, and nothing else. */
  lemma {:induction false} TouchTableFollowsHistory(history: seq<Op>, t: string)
    ensures t in Replay(history).touched <==> LastTouch(history, t).Some?
    ensures t in Replay(history).touched ==> Replay(history).touched[t] == Trunc(LastTouch(history, t).value)
  {
    hide Trunc, Save, SaveWrite;
    if history != [] {
      TouchTableFollowsHistory(history[..|history| - 1], t);
      BareKeepsTouched(Replay(history[..|history| - 1]), history[|history| - 1]);
    }
  }

  lemma BareKeepsTouched(tb: Tables, op: Op)
    ensures Bare(tb, op).touched == tb.touched
  {}

  /** `list_stale` returns the threads whose latest surviving touch lies before the cutoff. */
  lemma StaleFollowsHistory(history: seq<Op>, now: int, threshold: int, t: string)
    ensures t in Stale(Replay(history), now, threshold)
            <==> LastTouch(history, t).Some? && Trunc(LastTouch(history, t).value) < now - threshold
  {
    hide Replay, LastTouch, Trunc;
    TouchTableFollowsHistory(history, t);
  }

  /** The wrapper stores exactly what the bare inner saver would. */
  lemma {:induction false} StoresWhatInnerStores(history: seq<Op>)
    ensures Replay(history).checkpoints == BareReplay(history).checkpoints
    ensures Replay(history).writes == BareReplay(history).writes
  {
    if history != [] {
      StoresWhatInnerStores(history[..|history| - 1]);
      SameBare(Replay(history[..|history| - 1]), BareReplay(history[..|history| - 1]), history[|history| - 1]);
    }
  }

  lemma SameBare(a: Tables, b: Tables, op: Op)
    requires a.checkpoints == b.checkpoints && a.writes == b.writes
    ensures Apply(a, op).checkpoints == Bare(b, op).checkpoints && Apply(a, op).writes == Bare(b, op).writes
  {
    hide Rows, Trunc;
    BareIsLocal(a, b, op);
    hide Bare;
  }

  lemma BareIsLocal(a: Tables, b: Tables, op: Op)
    requires a.checkpoints == b.checkpoints && a.writes == b.writes
    ensures Bare(a, op).checkpoints == Bare(b, op).checkpoints && Bare(a, op).writes == Bare(b, op).writes
  {
    hide Rows;
  }

  /** What a call puts for a thread, by either method. */
  function PutFor(op: Op, t: string): Option<Checkpoint> {
    if (op.APut? || op.Put?) && op.config.threadId == Some(t) then Some(op.checkpoint) else None
  }

  function WriteFor(op: Op, t: string): Option<string> {
    if (op.APutWrites? || op.PutWrites?) && op.config.threadId == Some(t) then Some(op.write) else None
  }

  /** The checkpoints put for a thread since its last deletion, in order. */
  function PutsOf(history: seq<Op>, t: string): seq<Checkpoint> {
    if history == [] || history[|history| - 1] == DeleteThread(t) then []
    else
      var front, put := PutsOf(history[..|history| - 1], t), PutFor(history[|history| - 1], t);
      if put.Some? then front + [put.value] else front
  }

  function WritesOf(history: seq<Op>, t: string): seq<string> {
    if history == [] || history[|history| - 1] == DeleteThread(t) then []
    else
      var front, write := WritesOf(history[..|history| - 1], t), WriteFor(history[|history| - 1], t);
      if write.Some? then front + [write.value] else front
  }

  lemma OneCallPuts(tb: Tables, op: Op, t: string)
    ensures Rows(Apply(tb, op).checkpoints, t)
            == if op == DeleteThread(t) then []
               else Rows(tb.checkpoints, t) + if PutFor(op, t).Some? then [PutFor(op, t).value] else []
  {
    hide Trunc;
  }

  lemma OneCallWrites(tb: Tables, op: Op, t: string)
    ensures Rows(Apply(tb, op).writes, t)
            == if op == DeleteThread(t) then []
               else Rows(tb.writes, t) + if WriteFor(op, t).Some? then [WriteFor(op, t).value] else []
  {
    hide Trunc;
  }

  /** A thread has the checkpoints and writes put since its last deletion; what a get finds is the last one put. */
  lemma {:induction false} LatestIsLastPut(history: seq<Op>, t: string)
    ensures Rows(Replay(history).checkpoints, t) == PutsOf(history, t)
    ensures Rows(Replay(history).writes, t) == WritesOf(history, t)
    ensures Latest(Replay(history), t)
            == if PutsOf(history, t) == [] then None else Some(PutsOf(history, t)[|PutsOf(history, t)| - 1])
  {
    hide Apply, Rows, PutFor, WriteFor;
    if history == [] {
      NoRows(t);
    } else {
      LatestIsLastPut(history[..|history| - 1], t);
      OneCallPuts(Replay(history[..|history| - 1]), history[|history| - 1], t);
      OneCallWrites(Replay(history[..|history| - 1]), history[|history| - 1], t);
    }
  }

  lemma NoRows(t: string)
    ensures Rows(EmptyTables().checkpoints, t) == [] && Rows(EmptyTables().writes, t) == []
  {}

  /** Listing and the synchronous calls never touch: leaving them all out changes no touch. */
  lemma {:induction false} OnlyAsyncTouches(history: seq<Op>, t: string)
    ensures LastTouch(history, t) == LastTouch(Async(history), t)
  {
    if history != [] {
      var front, op := history[..|history| - 1], history[|history| - 1];
      OnlyAsyncTouches(front, t);
      if IsAsync(op) {
        assert Async(history)[..|Async(history)| - 1] == Async(front);
      }
    }
  }

  predicate IsAsync(op: Op) {
    op.AGet? || op.AGetTuple? || op.APut? || op.APutWrites? || op.DeleteThread?
  }

  function Async(history: seq<Op>): seq<Op> {
    if history == [] then []
    else
      var front, op := Async(history[..|history| - 1]), history[|history| - 1];
      if IsAsync(op) then front + [op] else front
  }

  /** With a clock that never runs back, a touch is never followed by an older one. */
  ghost predicate Monotone(history: seq<Op>) {
    forall i, j :: 0 <= i < j < |history| && Touching(history[i]).Some? && Touching(history[j]).Some? ==>
      Touching(history[i]).value.1 <= Touching(history[j]).value.1
  }

  /** Under a monotone clock no earlier touch of a surviving thread is later than the recorded one. */
  lemma {:induction false} LastTouchIsLatest(history: seq<Op>, t: string, i: nat)
    requires Monotone(history) && i < |history|
    requires Touching(history[i]).Some? && Touching(history[i]).value.0 == t
    requires LastTouch(history, t).Some?
    ensures Touching(history[i]).value.1 <= LastTouch(history, t).value
  {
    var front, op := history[..|history| - 1], history[|history| - 1];
    if !(Touching(op).Some? && Touching(op).value.0 == t) {
      assert front[i] == history[i];
      MonotoneFront(history);
      LastTouchIsLatest(front, t, i);
    }
  }

  lemma MonotoneFront(history: seq<Op>)
    requires history != [] && Monotone(history)
    ensures Monotone(history[..|history| - 1])
  {
    hide Touching;
  }

  // ---- The saver ----

  class TouchingCheckpointer {
    var checkpoints: map<string, seq<Checkpoint>>
    var writes: map<string, seq<string>>
    var touched: map<string, int>
    ghost var history: seq<Op>

    function Contents(): Tables
      reads this
    {
      Tables(checkpoints, writes, touched)
    }

    /** The tables are what the history of calls makes them. */
    ghost predicate Valid()
      reads this
    {
      Contents() == Replay(history)
    }

    constructor ()
      ensures Valid() && history == [] && Contents() == EmptyTables()
    {
      checkpoints, writes, touched, history := map[], map[], map[], [];
    }

    /** Every call adds itself to the history and has the effect `Apply` gives it. */
    twostate predicate Did(op: Op)
      reads this
    {
      Valid() && history == old(history) + [op] && Contents() == Apply(old(Contents()), op)
    }

    method AGet(config: Config, at: real) returns (r: Outcome<Option<Checkpoint>>)
      requires Valid()
      modifies this
      ensures Did(Op.AGet(config, at))
      ensures r == if config.threadId.None? then KeyError else Done(Latest(old(Contents()), config.threadId.value))
    {
      Remember(history, Op.AGet(config, at));
      history := history + [Op.AGet(config, at)];
      if config.threadId.None? {
        return KeyError;
      }
      r := Done(Latest(Contents(), config.threadId.value));
      if config.threadId.value != "" {
        touched := touched[config.threadId.value := Trunc(at)];
      }
    }

    method AGetTuple(config: Config, at: real) returns (r: Outcome<Option<Checkpoint>>)
      requires Valid()
      modifies this
      ensures Did(Op.AGetTuple(config, at))
      ensures r == if config.threadId.None? then KeyError else Done(Latest(old(Contents()), config.threadId.value))
    {
      Remember(history, Op.AGetTuple(config, at));
      history := history + [Op.AGetTuple(config, at)];
      if config.threadId.None? {
        return KeyError;
      }
      r := Done(Latest(Contents(), config.threadId.value));
      if config.threadId.value != "" {
        touched := touched[config.threadId.value := Trunc(at)];
      }
    }

    method APut(config: Config, checkpoint: Checkpoint, at: real) returns (r: Outcome<()>)
      requires Valid()
      modifies this
      ensures Did(Op.APut(config, checkpoint, at))
      ensures r.KeyError? <==> config.threadId.None?
    {
      Remember(history, Op.APut(config, checkpoint, at));
      history := history + [Op.APut(config, checkpoint, at)];
      if config.threadId.None? {
        return KeyError;
      }
      var t := config.threadId.value;
      checkpoints := checkpoints[t := Rows(checkpoints, t) + [checkpoint]];
      if t != "" {
        touched := touched[t := Trunc(at)];
      }
      return Done(());
    }

    method APutWrites(config: Config, write: string, at: real) returns (r: Outcome<()>)
      requires Valid()
      modifies this
      ensures Did(Op.APutWrites(config, write, at))
      ensures r.KeyError? <==> config.threadId.None?
    {
      Remember(history, Op.APutWrites(config, write, at));
      history := history + [Op.APutWrites(config, write, at)];
      if config.threadId.None? {
        return KeyError;
      }
      var t := config.threadId.value;
      writes := writes[t := Rows(writes, t) + [write]];
      if t != "" {
        touched := touched[t := Trunc(at)];
      }
      return Done(());
    }

    method AList(config: Config) returns (r: Outcome<seq<Checkpoint>>)
      requires Valid()
      modifies this`history
      ensures Did(Op.AList(config))
      ensures r == if config.threadId.None? then KeyError else Done(Rows(checkpoints, config.threadId.value))
    {
      Remember(history, Op.AList(config));
      history := history + [Op.AList(config)];
      return if config.threadId.None? then KeyError else Done(Rows(checkpoints, config.threadId.value));
    }

    /** `get` and `get_tuple`: the inner saver alone. */
    method Get(config: Config) returns (r: Outcome<Option<Checkpoint>>)
      requires Valid()
      modifies this`history
      ensures Did(Op.Get(config))
      ensures r == if config.threadId.None? then KeyError else Done(Latest(Contents(), config.threadId.value))
    {
      Remember(history, Op.Get(config));
      history := history + [Op.Get(config)];
      return if config.threadId.None? then KeyError else Done(Latest(Contents(), config.threadId.value));
    }

    method Put(config: Config, checkpoint: Checkpoint) returns (r: Outcome<()>)
      requires Valid()
      modifies this
      ensures Did(Op.Put(config, checkpoint))
      ensures r.KeyError? <==> config.threadId.None?
    {
      Remember(history, Op.Put(config, checkpoint));
      history := history + [Op.Put(config, checkpoint)];
      if config.threadId.None? {
        return KeyError;
      }
      var t := config.threadId.value;
      checkpoints := checkpoints[t := Rows(checkpoints, t) + [checkpoint]];
      return Done(());
    }

    method PutWrites(config: Config, write: string) returns (r: Outcome<()>)
      requires Valid()
      modifies this
      ensures Did(Op.PutWrites(config, write))
      ensures r.KeyError? <==> config.threadId.None?
    {
      Remember(history, Op.PutWrites(config, write));
      history := history + [Op.PutWrites(config, write)];
      if config.threadId.None? {
        return KeyError;
      }
      var t := config.threadId.value;
      writes := writes[t := Rows(writes, t) + [write]];
      return Done(());
    }

    method GetLastTouched(t: string) returns (r: Option<int>)
      requires Valid()
      ensures r == match LastTouch(history, t) case Some(at) => Some(Trunc(at)) case None => None
    {
      TouchTableFollowsHistory(history, t);
      return if t in touched then Some(touched[t]) else None;
    }

    method ListStale(now: int, threshold: int) returns (stale: set<string>)
      requires Valid()
      ensures stale == Stale(Contents(), now, threshold)
      ensures forall t :: t in stale <==>
        LastTouch(history, t).Some? && Trunc(LastTouch(history, t).value) < now - threshold
    {
      hide Trunc, Replay;
      var cutoff := now - threshold;
      stale := set t | t in touched && touched[t] < cutoff;
      forall t ensures t in stale <==>
        LastTouch(history, t).Some? && Trunc(LastTouch(history, t).value) < now - threshold
      {
        StaleFollowsHistory(history, now, threshold, t);
      }
    }

    /** All three deletions in one transaction. */
    method ADeleteThread(t: string)
      requires Valid()
      modifies this
      ensures Did(DeleteThread(t)) && Contents() == Delete(old(Contents()), t)
    {
      Remember(history, DeleteThread(t));
      history := history + [DeleteThread(t)];
      checkpoints := checkpoints - {t};
      writes := writes - {t};
      touched := touched - {t};
    }
  }

  lemma Remember(history: seq<Op>, op: Op)
    ensures Replay(history + [op]) == Apply(Replay(history), op)
  {
    assert (history + [op])[..|history|] == history;
  }
}
