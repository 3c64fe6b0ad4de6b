/** The streaming session functions of src/features/decision_maker/graph.py, and what a client of /turn sees of
    a leg. */
module Sessions {
  import opened PyText
  import opened CheckpointFactory
  import opened Idempotency
  import opened Lifecycle
  import opened TurnApi
  import G = DecisionGraph

  /** A node's update carries no sentinel flag. */
  function Update(): Chunk {
    Chunk(false, false, "", "")
  }

  function Updates(n: nat): seq<Chunk> {
    seq(n, _ => Update())
  }

  /** Whether the executor's iteration came to its end without an exception. */
  predicate Completed(o: G.Outcome) {
    o.status == G.Paused || o.status == G.Finished
  }

  /** The chunks of `stream_session`: one per node that did not raise, then the question. */
  function StartChunks(o: G.Outcome): seq<Chunk> {
    Updates(G.Yielded(o)) + if Completed(o) then [Chunk(true, false, G.OrEmpty(o.st.lastQuestion), "")] else []
  }

  /** The chunks of `stream_resume_session`: one per node that did not raise, then the answer. */
  function ResumeChunks(o: G.Outcome): seq<Chunk> {
    Updates(G.Yielded(o)) + if Completed(o) then [Chunk(false, true, "", G.OrEmpty(o.st.finalAnswer))] else []
  }

  // ---- The injected client ----

  /** What one stream, first or resumed, does to nodes.py's module-level client override: it sets its own client when
      it starts, and clears the override when it ends, however it ends. `session` names the stream. */
  datatype Mark = SetBy(session: nat, client: nat) | ClearBy(session: nat)

  /** The override after these marks: the last one decides. */
  function Override(marks: seq<Mark>): Option<nat> {
    if marks != [] && marks[|marks| - 1].SetBy? then Some(marks[|marks| - 1].client) else None
  }

  /** Any interleaving of sessions: each sets at most once, and clears at most once and only after its set. */
  predicate Interleaved(marks: seq<Mark>) {
    && (forall i, j :: 0 <= i < j < |marks| && marks[i].session == marks[j].session ==>
          marks[i].SetBy? && marks[j].ClearBy?)
    && (forall j :: 0 <= j < |marks| && marks[j].ClearBy? ==>
          exists i :: 0 <= i < j && marks[i].session == marks[j].session)
  }

  /** The session that made mark i is still streaming: it has made no mark since. */
  predicate Running(marks: seq<Mark>, i: nat)
    requires i < |marks|
  {
    marks[i].SetBy? && forall j :: i < j < |marks| ==> marks[j].session != marks[i].session
  }

  /** A single moment of any interleaving, before the next lemmas speak of a stream's whole time: the nodes of a
      running session see its own client exactly when no other session has set or cleared the override since its
      set, or the last to do so set the same client. */
  lemma SeesOwnClientExactly(marks: seq<Mark>, i: nat)
    requires Interleaved(marks) && i < |marks| && Running(marks, i)
    ensures Override(marks) == Some(marks[i].client)
            <==> ((forall j :: i < j < |marks| ==> marks[j].session == marks[i].session)
                  || (marks[|marks| - 1].SetBy? && marks[|marks| - 1].client == marks[i].client))
  {
    var last := |marks| - 1;
    if i < last { assert marks[last].session != marks[i].session; }
  }

  /** They see it at every moment of the session so far exactly when every mark made meanwhile sets the same client:
      no other session has ended, and none has brought another client. */
  lemma SeesOwnClientThroughoutExactly(marks: seq<Mark>, i: nat)
    requires Interleaved(marks) && i < |marks| && Running(marks, i)
    ensures (forall k :: i < k <= |marks| ==> Override(marks[..k]) == Some(marks[i].client))
            <==> (forall j :: i < j < |marks| ==> marks[j].SetBy? && marks[j].client == marks[i].client)
  {
    if forall k :: i < k <= |marks| ==> Override(marks[..k]) == Some(marks[i].client) {
      forall j | i < j < |marks| ensures marks[j].SetBy? && marks[j].client == marks[i].client {
        assert Override(marks[..j + 1]) == Some(marks[i].client);
      }
    }
    if forall j :: i < j < |marks| ==> marks[j].SetBy? && marks[j].client == marks[i].client {
      forall k | i < k <= |marks| ensures Override(marks[..k]) == Some(marks[i].client) {
        assert marks[..k][k - 1] == marks[k - 1];
      }
    }
  }

  /** When all sessions inject the same client, as the server does, that comes down to: none has ended meanwhile. */
  lemma SharedClientExactly(marks: seq<Mark>, i: nat, client: nat)
    requires Interleaved(marks) && i < |marks| && Running(marks, i)
    requires forall j :: 0 <= j < |marks| && marks[j].SetBy? ==> marks[j].client == client
    ensures (forall k :: i < k <= |marks| ==> Override(marks[..k]) == Some(client))
            <==> (forall j :: i < j < |marks| ==> !marks[j].ClearBy?)
  {
    hide Override, Interleaved;
    SeesOwnClientThroughoutExactly(marks, i);
  }

  /** No client outlives the sessions: once every session has ended, the override is empty. */
  lemma NoneLeft(marks: seq<Mark>)
    requires forall i :: 0 <= i < |marks| ==> !Running(marks, i)
    ensures Override(marks) == None
  {
    if marks != [] { assert !Running(marks, |marks| - 1); }
  }

  /** The override, and the session functions that set and clear it. The two halves of a stream are separate
      methods, so that sessions can interleave as they do at every await. */
  class Streaming {
    var client: Option<nat>
    ghost var marks: seq<Mark>

    ghost predicate Valid()
      reads this
    {
      client == Override(marks) && Interleaved(marks)
    }

    /** The session has made no mark yet. */
    ghost predicate Unknown(session: nat)
      reads this
    {
      forall j :: 0 <= j < |marks| ==> marks[j].session != session
    }

    /** The session has set its client and not cleared it. */
    ghost predicate Streams(session: nat)
      reads this
    {
      exists i :: 0 <= i < |marks| && marks[i].session == session && Running(marks, i)
    }

    constructor ()
      ensures Valid() && marks == []
    {
      client, marks := None, [];
    }

    /** `set_llm_client_override(llm_client)`, if one is injected. */
    method Open(session: nat, llmClient: Option<nat>)
      requires Valid() && Unknown(session)
      modifies this
      ensures Valid()
      ensures marks == if llmClient.Some? then old(marks) + [SetBy(session, llmClient.value)] else old(marks)
      ensures llmClient.Some? ==> Streams(session)
    {
      if llmClient.Some? {
        OpenInterleaves(marks, session, llmClient.value);
        client := llmClient;
        marks := marks + [SetBy(session, llmClient.value)];
        assert marks[|marks| - 1].session == session && Running(marks, |marks| - 1);
      }
    }

    /** The `finally` of the session: `set_llm_client_override(None)`. */
    method Close(session: nat, llmClient: Option<nat>)
      requires Valid() && (llmClient.Some? ==> Streams(session))
      modifies this
      ensures Valid()
      ensures marks == if llmClient.Some? then old(marks) + [ClearBy(session)] else old(marks)
    {
      if llmClient.Some? {
        CloseInterleaves(marks, session);
        client := None;
        marks := marks + [ClearBy(session)];
      }
    }

    /** The client a node finds; None makes it build its own. */
    method Seen() returns (seen: Option<nat>)
      requires Valid()
      ensures seen == Override(marks)
    {
      seen := client;
    }

    method StreamSession(session: nat, userInput: string, llmClient: Option<nat>, oracle: nat -> G.Answers, limit: nat)
      returns (chunks: seq<Chunk>, raised: bool)
      requires Valid() && Unknown(session)
      modifies this
      ensures Valid()
      ensures var o := G.Start(userInput, oracle, limit);
              chunks == StartChunks(o) && (raised <==> !Completed(o))
      ensures marks == if llmClient.Some? then old(marks) + [SetBy(session, llmClient.value)] + [ClearBy(session)]
                       else old(marks)
    {
      hide G.Start, Interleaved, Running;
      Open(session, llmClient);
      var o := G.Start(userInput, oracle, limit);
      chunks := Iterate(o);
      raised := !Completed(o);
      var lastQuestion := G.OrEmpty(o.st.lastQuestion);
      Close(session, llmClient);
      if !raised {
        chunks := chunks + [Chunk(true, false, lastQuestion, "")];
      }
    }

    method StreamResumeSession(session: nat, pending: Option<G.Node>, st: G.State, userAnswer: string,
                               llmClient: Option<nat>, oracle: nat -> G.Answers, limit: nat)
      returns (chunks: seq<Chunk>, raised: bool)
      requires Valid() && Unknown(session)
      modifies this
      ensures Valid()
      ensures var o := G.Resume(pending, st, userAnswer, oracle, limit);
              chunks == ResumeChunks(o) && (raised <==> !Completed(o))
      ensures marks == if llmClient.Some? then old(marks) + [SetBy(session, llmClient.value)] + [ClearBy(session)]
                       else old(marks)
    {
      hide G.Resume, Interleaved, Running;
      Open(session, llmClient);
      var o := G.Resume(pending, st, userAnswer, oracle, limit);
      chunks := Iterate(o);
      raised := !Completed(o);
      var finalAnswer := G.OrEmpty(o.st.finalAnswer);
      Close(session, llmClient);
      if !raised {
        chunks := chunks + [Chunk(false, true, "", finalAnswer)];
      }
    }

    /** The `async for` over the executor's updates. */
    static method Iterate(o: G.Outcome) returns (chunks: seq<Chunk>)
      ensures chunks == Updates(G.Yielded(o))
    {
      chunks := [];
      for i := 0 to G.Yielded(o)
        invariant chunks == Updates(i)
      {
        chunks := chunks + [Update()];
      }
    }
  }

  lemma OpenInterleaves(marks: seq<Mark>, session: nat, client: nat)
    requires Interleaved(marks) && forall j :: 0 <= j < |marks| ==> marks[j].session != session
    ensures Interleaved(marks + [SetBy(session, client)])
  {
    var longer := marks + [SetBy(session, client)];
    forall j | 0 <= j < |longer| && longer[j].ClearBy?
      ensures exists h :: 0 <= h < j && longer[h].session == longer[j].session
    {
      var h :| 0 <= h < j && marks[h].session == marks[j].session;
      assert longer[h].session == longer[j].session;
    }
  }

  lemma CloseInterleaves(marks: seq<Mark>, session: nat)
    requires Interleaved(marks)
    requires exists i :: 0 <= i < |marks| && marks[i].session == session && Running(marks, i)
    ensures Interleaved(marks + [ClearBy(session)])
  {
    var i :| 0 <= i < |marks| && marks[i].session == session && Running(marks, i);
    var longer := marks + [ClearBy(session)];
    assert longer[i].session == longer[|marks|].session;
    forall h | 0 <= h < |marks| && marks[h].session == session ensures h == i { OnlyMark(marks, i, h); }
    forall j | 0 <= j < |longer| && longer[j].ClearBy?
      ensures exists h :: 0 <= h < j && longer[h].session == longer[j].session
    {
      if j < |marks| {
        assert marks[j].ClearBy?;
        var h :| 0 <= h < j && marks[h].session == marks[j].session;
        assert longer[h].session == longer[j].session;
      }
    }
  }

  lemma OnlyMark(marks: seq<Mark>, i: nat, h: nat)
    requires Interleaved(marks) && i < |marks| && Running(marks, i)
    requires h < |marks| && marks[h].session == marks[i].session
    ensures h == i
  {}

  /** The witness: of two overlapping sessions with the same client, the first to end takes it from the other. */
  method OverlappingSessions(client: nat) returns (before: Option<nat>, after: Option<nat>)
    ensures before == Some(client) && after == None
  {
    var s := new Streaming();
    s.Open(1, Some(client));
    s.Open(2, Some(client));
    before := s.Seen();
    StillStreams(client);
    s.Close(1, Some(client));
    after := s.Seen();
  }

  lemma StillStreams(client: nat)
    ensures var marks := [SetBy(1, client)] + [SetBy(2, client)];
            marks[0].session == 1 && Running(marks, 0)
  {}

  // ---- What the graph checkpoints ----

  /** The channels with one more field, if it was written. */
  function With(channels: map<string, seq<string>>, name: string, items: Option<seq<string>>)
    : map<string, seq<string>>
  {
    if items.Some? then channels[name := items.value] else channels
  }

  function Text(o: Option<string>): Option<seq<string>> {
    if o.Some? then Some([o.value]) else None
  }

  function Printed<T>(o: Option<T>, items: seq<string>): Option<seq<string>> {
    if o.Some? then Some(items) else None
  }

  function InputChannels(channels: map<string, seq<string>>, st: G.State, weights: seq<string>)
    : map<string, seq<string>>
  {
    var c1 := With(channels, "user_input", Text(st.userInput));
    var c2 := With(c1, "dilemma", Text(st.dilemma));
    var c3 := With(c2, "weights", Printed(st.weights, weights));
    With(c3, "tool_facts", st.toolFacts)
  }

  function LoopChannels(channels: map<string, seq<string>>, st: G.State, count: seq<string>): map<string, seq<string>> {
    var c1 := With(channels, "last_question", Text(st.lastQuestion));
    var c2 := With(c1, "draft_analysis", Text(st.draft));
    var c3 := With(c2, "critique_feedback", Text(st.feedback));
    With(c3, "rewrite_count", Printed(st.rewriteCount, count))
  }

  function OtherChannels(channels: map<string, seq<string>>, st: G.State, flag: seq<string>): map<string, seq<string>> {
    var c1 := With(channels, "is_data_sufficient", Printed(st.sufficient, flag));
    var c2 := With(c1, "user_answer", Text(st.userAnswer));
    var c3 := With(c2, "search_queries", st.queries);
    var c4 := With(c3, "final_answer", Text(st.finalAnswer));
    With(c4, "assumptions", Text(st.assumptions))
  }

  /** The channels of a checkpointed graph state: the fields of its schema that were written. How weights, counts and
      flags are printed is a parameter. */
  function ChannelsOf(st: G.State, weights: seq<string>, count: seq<string>, flag: seq<string>)
    : map<string, seq<string>>
  {
    OtherChannels(LoopChannels(InputChannels(map[], st, weights), st, count), st, flag)
  }

  /** Every channel that was there stays, and a written field is there. */
  lemma WithGrows(channels: map<string, seq<string>>, name: string, items: Option<seq<string>>)
    ensures channels.Keys <= With(channels, name, items).Keys
    ensures items.Some? ==> name in With(channels, name, items).Keys
    ensures items.None? ==> With(channels, name, items) == channels
  {}

  lemma InputChannelsWritten(channels: map<string, seq<string>>, st: G.State, weights: seq<string>)
    ensures var keys := InputChannels(channels, st, weights).Keys;
            && channels.Keys <= keys
            && (st.userInput.Some? ==> "user_input" in keys)
            && (st.dilemma.Some? ==> "dilemma" in keys)
            && (st.weights.Some? ==> "weights" in keys)
            && (st.toolFacts.Some? ==> "tool_facts" in keys)
    ensures (st.userInput.None? && st.dilemma.None? && st.weights.None? && st.toolFacts.None?)
            ==> InputChannels(channels, st, weights) == channels
  {
    hide With;
    WithGrows(channels, "user_input", Text(st.userInput));
    var c1 := With(channels, "user_input", Text(st.userInput));
    WithGrows(c1, "dilemma", Text(st.dilemma));
    var c2 := With(c1, "dilemma", Text(st.dilemma));
    WithGrows(c2, "weights", Printed(st.weights, weights));
    var c3 := With(c2, "weights", Printed(st.weights, weights));
    WithGrows(c3, "tool_facts", st.toolFacts);
  }

  lemma LoopChannelsWritten(channels: map<string, seq<string>>, st: G.State, count: seq<string>)
    ensures var keys := LoopChannels(channels, st, count).Keys;
            && channels.Keys <= keys
            && (st.lastQuestion.Some? ==> "last_question" in keys)
            && (st.draft.Some? ==> "draft_analysis" in keys)
            && (st.feedback.Some? ==> "critique_feedback" in keys)
            && (st.rewriteCount.Some? ==> "rewrite_count" in keys)
    ensures (st.lastQuestion.None? && st.draft.None? && st.feedback.None? && st.rewriteCount.None?)
            ==> LoopChannels(channels, st, count) == channels
  {
    hide With;
    WithGrows(channels, "last_question", Text(st.lastQuestion));
    var c1 := With(channels, "last_question", Text(st.lastQuestion));
    WithGrows(c1, "draft_analysis", Text(st.draft));
    var c2 := With(c1, "draft_analysis", Text(st.draft));
    WithGrows(c2, "critique_feedback", Text(st.feedback));
    var c3 := With(c2, "critique_feedback", Text(st.feedback));
    WithGrows(c3, "rewrite_count", Printed(st.rewriteCount, count));
  }

  lemma OtherChannelsWritten(channels: map<string, seq<string>>, st: G.State, flag: seq<string>)
    ensures var keys := OtherChannels(channels, st, flag).Keys;
            && channels.Keys <= keys
            && (st.sufficient.Some? ==> "is_data_sufficient" in keys)
            && (st.userAnswer.Some? ==> "user_answer" in keys)
            && (st.queries.Some? ==> "search_queries" in keys)
            && (st.finalAnswer.Some? ==> "final_answer" in keys)
            && (st.assumptions.Some? ==> "assumptions" in keys)
    ensures (st.sufficient.None? && st.userAnswer.None? && st.queries.None? && st.finalAnswer.None?
             && st.assumptions.None?)
            ==> OtherChannels(channels, st, flag) == channels
  {
    hide With;
    WithGrows(channels, "is_data_sufficient", Printed(st.sufficient, flag));
    var c1 := With(channels, "is_data_sufficient", Printed(st.sufficient, flag));
    WithGrows(c1, "user_answer", Text(st.userAnswer));
    var c2 := With(c1, "user_answer", Text(st.userAnswer));
    WithGrows(c2, "search_queries", st.queries);
    var c3 := With(c2, "search_queries", st.queries);
    WithGrows(c3, "final_answer", Text(st.finalAnswer));
    var c4 := With(c3, "final_answer", Text(st.finalAnswer));
    WithGrows(c4, "assumptions", Text(st.assumptions));
  }

  /** Every field that was written is a channel; where none was, there is no channel. */
  lemma WrittenFieldsStay(st: G.State, weights: seq<string>, count: seq<string>, flag: seq<string>)
    ensures var keys := ChannelsOf(st, weights, count, flag).Keys;
            && (st.userInput.Some? ==> "user_input" in keys)
            && (st.dilemma.Some? ==> "dilemma" in keys)
            && (st.weights.Some? ==> "weights" in keys)
            && (st.toolFacts.Some? ==> "tool_facts" in keys)
            && (st.lastQuestion.Some? ==> "last_question" in keys)
            && (st.draft.Some? ==> "draft_analysis" in keys)
            && (st.feedback.Some? ==> "critique_feedback" in keys)
            && (st.rewriteCount.Some? ==> "rewrite_count" in keys)
            && (st.sufficient.Some? ==> "is_data_sufficient" in keys)
            && (st.userAnswer.Some? ==> "user_answer" in keys)
            && (st.queries.Some? ==> "search_queries" in keys)
            && (st.finalAnswer.Some? ==> "final_answer" in keys)
            && (st.assumptions.Some? ==> "assumptions" in keys)
    ensures (st.userInput.None? && st.dilemma.None? && st.weights.None? && st.toolFacts.None?
             && st.lastQuestion.None? && st.draft.None? && st.feedback.None? && st.rewriteCount.None?
             && st.sufficient.None? && st.userAnswer.None? && st.queries.None? && st.finalAnswer.None?
             && st.assumptions.None?)
            ==> ChannelsOf(st, weights, count, flag) == map[]
  {
    hide InputChannels, LoopChannels, OtherChannels;
    var c1 := InputChannels(map[], st, weights);
    var c2 := LoopChannels(c1, st, count);
    InputChannelsWritten(map[], st, weights);
    LoopChannelsWritten(c1, st, count);
    OtherChannelsWritten(c2, st, flag);
  }

  predicate NoneUnderM(channels: map<string, seq<string>>) {
    forall name :: name in channels ==> name != "" && name[0] != 'm'
  }

  lemma WithOther(channels: map<string, seq<string>>, name: string, items: Option<seq<string>>)
    requires NoneUnderM(channels) && name != "" && name[0] != 'm'
    ensures NoneUnderM(With(channels, name, items))
  {}

  lemma InputChannelsNames(channels: map<string, seq<string>>, st: G.State, weights: seq<string>)
    requires NoneUnderM(channels)
    ensures NoneUnderM(InputChannels(channels, st, weights))
  {
    hide With, NoneUnderM, Text, Printed;
    WithOther(channels, "user_input", Text(st.userInput));
    var c1 := With(channels, "user_input", Text(st.userInput));
    WithOther(c1, "dilemma", Text(st.dilemma));
    var c2 := With(c1, "dilemma", Text(st.dilemma));
    WithOther(c2, "weights", Printed(st.weights, weights));
    var c3 := With(c2, "weights", Printed(st.weights, weights));
    WithOther(c3, "tool_facts", st.toolFacts);
  }

  lemma LoopChannelsNames(channels: map<string, seq<string>>, st: G.State, count: seq<string>)
    requires NoneUnderM(channels)
    ensures NoneUnderM(LoopChannels(channels, st, count))
  {
    hide With, NoneUnderM, Text, Printed;
    WithOther(channels, "last_question", Text(st.lastQuestion));
    var c1 := With(channels, "last_question", Text(st.lastQuestion));
    WithOther(c1, "draft_analysis", Text(st.draft));
    var c2 := With(c1, "draft_analysis", Text(st.draft));
    WithOther(c2, "critique_feedback", Text(st.feedback));
    var c3 := With(c2, "critique_feedback", Text(st.feedback));
    WithOther(c3, "rewrite_count", Printed(st.rewriteCount, count));
  }

  lemma OtherChannelsNames(channels: map<string, seq<string>>, st: G.State, flag: seq<string>)
    requires NoneUnderM(channels)
    ensures NoneUnderM(OtherChannels(channels, st, flag))
  {
    hide With, NoneUnderM, Text, Printed;
    WithOther(channels, "is_data_sufficient", Printed(st.sufficient, flag));
    var c1 := With(channels, "is_data_sufficient", Printed(st.sufficient, flag));
    WithOther(c1, "user_answer", Text(st.userAnswer));
    var c2 := With(c1, "user_answer", Text(st.userAnswer));
    WithOther(c2, "search_queries", st.queries);
    var c3 := With(c2, "search_queries", st.queries);
    WithOther(c3, "final_answer", Text(st.finalAnswer));
    var c4 := With(c3, "final_answer", Text(st.finalAnswer));
    WithOther(c4, "assumptions", Text(st.assumptions));
  }

  lemma ChannelNames(st: G.State, weights: seq<string>, count: seq<string>, flag: seq<string>)
    ensures NoneUnderM(ChannelsOf(st, weights, count, flag))
  {
    hide InputChannels, LoopChannels, OtherChannels;
    var c1 := InputChannels(map[], st, weights);
    InputChannelsNames(map[], st, weights);
    LoopChannelsNames(c1, st, count);
    OtherChannelsNames(LoopChannels(c1, st, count), st, flag);
  }

  /** None of the schema's thirteen fields is called `messages`: no graph state, whatever was written, checkpoints
      any, so the count that /turn reads from a checkpoint of the graph is 0. */
  lemma GraphKeepsNoMessages(st: G.State, weights: seq<string>, count: seq<string>, flag: seq<string>)
    ensures "messages" !in ChannelsOf(st, weights, count, flag)
    ensures Messages(Checkpoint(ChannelsOf(st, weights, count, flag))) == []
  {
    hide ChannelsOf;
    ChannelNames(st, weights, count, flag);
    assert "messages"[0] == 'm';
  }

  // ---- What /turn answers ----

  lemma SentinelDecides(front: seq<Chunk>, c: Chunk)
    ensures LastSentinel(front + [c])
            == if c.awaiting then (c.lastQuestion, false)
               else if c.done then (c.finalAnswer, true) else LastSentinel(front)
  {
    assert (front + [c])[..|front|] == front;
  }

  /** A stream without a sentinel gives no text and is not done; no update passes for a sentinel. */
  lemma {:induction false} UpdatesSayNothing(n: nat)
    ensures LastSentinel(Updates(n)) == ("", false)
    ensures forall chunk <- Updates(n) :: !chunk.awaiting && !chunk.done
  {
    if n > 0 {
      assert Updates(n)[..n - 1] == Updates(n - 1);
      UpdatesSayNothing(n - 1);
    }
  }

  /** The pause of a first leg is at the questioner, and the question is its answer. */
  lemma {:induction false} QuestionIsLastNodes(node: G.Node, st: G.State, oracle: nat -> G.Answers, step: nat,
                                               limit: nat)
    requires G.Leg(G.Compiled(), node, st, oracle, step, limit).status == G.Paused
    ensures var o := G.Leg(G.Compiled(), node, st, oracle, step, limit);
            && o.visits != [] && o.visits[|o.visits| - 1].node == G.WeightQuestioner
            && o.st.lastQuestion == Some(oracle(o.visits[|o.visits| - 1].step).question)
    decreases limit
  {
    hide G.Compiled, G.Follow, G.Delta, G.Leg;
    G.LegZero(node, st, oracle, step);
    G.LegStep(node, st, oracle, step, limit);
    var st1 := G.Delta(node, st, oracle(step));
    G.FollowCompiled(node, st1);
    if G.Follow(G.Compiled(), node, st1).Go? {
      QuestionIsLastNodes(G.Follow(G.Compiled(), node, st1).node, st1, oracle, step + 1, limit - 1);
    } else {
      AskedQuestion(st, oracle(step));
    }
  }

  lemma AskedQuestion(st: G.State, a: G.Answers)
    ensures G.Delta(G.WeightQuestioner, st, a).lastQuestion == Some(a.question)
  {}

  /** A /turn that gets to its stream's end answers with the last sentinel. */
  lemma FinishedTurnAnswers(s: Settings, a: App, req: TurnRequest, env: Env)
    requires PassesCheck(a, req) && Lookup(a.cache, DerivedKey(s, a, req, env), env.lookup).None?
    requires env.stream.ending == Finished
    ensures var (text, done) := LastSentinel(env.stream.chunks);
            AfterTurn(s, a, req, env).1 == Ok(Reply(ThreadFor(req, env), text, done, TurnNumber(a, req)))
  {
    hide Lookup, AfterGet, AfterSet, KeyOf, LastSentinel, Streamed, AfterTurn, PassesCheck, TurnNumber, DerivedKey,
         AtLookup;
    PassedTurn(s, a, req, env);
    AtLookupKeeps(a, req, env);
  }

  /** A /turn that opens a session and whose graph pauses answers with the questioner's question, still running. */
  lemma NewTurnAsks(s: Settings, a: App, req: TurnRequest, env: Env, oracle: nat -> G.Answers, limit: nat, o: G.Outcome)
    requires req.sessionId.None? && o == G.Start(req.message, oracle, limit) && o.status == G.Paused
    requires env.stream.chunks == StartChunks(o) && env.stream.ending == Finished
    requires Lookup(a.cache, KeyOf(s, req, env.uuid, 0), env.lookup).None?
    ensures o.visits != []
            && AfterTurn(s, a, req, env).1
               == Ok(Reply(env.uuid, oracle(o.visits[|o.visits| - 1].step).question, false, 0))
  {
    hide G.Leg, Lookup, KeyOf, LastSentinel, AfterTurn;
    FinishedTurnAnswers(s, a, req, env);
    QuestionIsLastNodes(G.ContextAnalyzer, G.InitialState(req.message), oracle, 0, limit);
    SentinelDecides(Updates(G.Yielded(o)), Chunk(true, false, G.OrEmpty(o.st.lastQuestion), ""));
  }

  /** A /turn that resumes a session, and whose graph ends, answers with the synthesizer's text and is done. */
  lemma ResumedTurnAnswers(s: Settings, a: App, req: TurnRequest, env: Env, pending: G.Node, st: G.State,
                           oracle: nat -> G.Answers, limit: nat, o: G.Outcome)
    requires req.sessionId.Some? && PassesCheck(a, req)
    requires o == G.Resume(Some(pending), st, req.message, oracle, limit) && o.status == G.Finished
    requires env.stream.chunks == ResumeChunks(o) && env.stream.ending == Finished
    requires Lookup(a.cache, DerivedKey(s, a, req, env), env.lookup).None?
    ensures o.visits != []
            && AfterTurn(s, a, req, env).1
               == Ok(Reply(req.sessionId.value, oracle(o.visits[|o.visits| - 1].step).final, true, TurnNumber(a, req)))
  {
    hide G.Leg, G.Compiled, Lookup, LastSentinel, AfterTurn, PassesCheck, TurnNumber, DerivedKey;
    FinishedTurnAnswers(s, a, req, env);
    G.AnswerIsLastNodes(pending, st.(userAnswer := Some(req.message)), oracle, 0, limit);
    SentinelDecides(Updates(G.Yielded(o)), Chunk(false, true, "", G.OrEmpty(o.st.finalAnswer)));
  }

  /** The done sentinel of a resumed stream is true exactly when the leg went on from behind the pause, or the graph
      had ended: a session cut off in its first leg goes on to the question. */
  lemma DoneIsTrueExactly(pending: Option<G.Node>, st: G.State, userAnswer: string, oracle: nat -> G.Answers,
                          limit: nat)
    requires Completed(G.Resume(pending, st, userAnswer, oracle, limit))
    ensures G.Resume(pending, st, userAnswer, oracle, limit).status == G.Finished
            <==> pending.None? || G.InLeg(false, pending.value)
  {
    hide G.Leg, G.Compiled;
    if pending.Some? {
      G.HalvesStay(pending.value, st.(userAnswer := Some(userAnswer)), oracle, 0, limit);
      G.HalvesCover(pending.value);
    }
  }

  /** In the other case the stream ends with an empty answer and the done sentinel, while the graph waits for the
      answer to a question that is not in the stream. */
  lemma CutOffStartSaysDone(pending: G.Node, st: G.State, userAnswer: string, oracle: nat -> G.Answers, limit: nat)
    requires G.Resumable(Some(pending), st) && G.InLeg(true, pending)
    requires Completed(G.Resume(Some(pending), st, userAnswer, oracle, limit))
    ensures var o := G.Resume(Some(pending), st, userAnswer, oracle, limit);
            && o.status == G.Paused && o.pending == Some(G.WeightParser)
            && LastSentinel(ResumeChunks(o)) == ("", true)
  {
    hide G.Leg, G.Compiled, LastSentinel, G.InLeg, G.WellEntered;
    var st0 := st.(userAnswer := Some(userAnswer));
    var o := G.Resume(Some(pending), st, userAnswer, oracle, limit);
    G.HalvesCover(pending);
    DoneIsTrueExactly(Some(pending), st, userAnswer, oracle, limit);
    G.PausePending(pending, st0, oracle, 0, limit);
    G.AnswerKeepsResumable(Some(pending), st, userAnswer);
    G.LegKeepsResumable(pending, st0, oracle, 0, limit);
    SentinelDecides(Updates(G.Yielded(o)), Chunk(false, true, "", G.OrEmpty(o.st.finalAnswer)));
  }

  /** What /turn makes of that. A request opens a session whose graph saves and is then cut off before it comes to the
      question; its response names no session. A second request with that session's id, whose graph comes to an end
      of its leg, is answered with an empty text and done, while the graph waits at the question. */
  lemma CutOffTurnSaysDone(s: Settings, a: App, req: TurnRequest, env: Env, oracle: nat -> G.Answers, limit: nat,
                           o: G.Outcome, b: App, again: TurnRequest, env': Env, oracle': nat -> G.Answers, limit': nat,
                           o': G.Outcome)
    requires req.sessionId.None? && o == G.Start(req.message, oracle, limit) && !Completed(o)
    requires HasSave(env.stream.ops) && env.stream.ending != Finished
    requires Lookup(a.cache, DerivedKey(s, a, req, env), env.lookup).None? && b == AfterTurn(s, a, req, env).0
    requires again.sessionId == Some(env.uuid)
    requires o' == G.Resume(o.pending, o.st, again.message, oracle', limit') && Completed(o')
    requires env'.stream.chunks == ResumeChunks(o') && env'.stream.ending == Finished
    requires Lookup(b.cache, DerivedKey(s, b, again, env'), env'.lookup).None?
    ensures AfterTurn(s, a, req, env).1 == LLMTimeout || AfterTurn(s, a, req, env).1 == ServerError
    ensures o'.status == G.Paused && o'.pending == Some(G.WeightParser)
    ensures AfterTurn(s, b, again, env').1 == Ok(Reply(env.uuid, "", true, TurnNumber(b, again)))
  {
    CutOffIsNoReply(s, a, req, env);
    hide G.Leg, G.Compiled, G.Start, G.Resume, G.Resumable, G.InLeg, AfterTurn, Lookup, DerivedKey, LastSentinel,
         HasSave, PassesCheck, TurnNumber;
    G.CutOffPending(req.message, oracle, limit);
    CutOffStartSaysDone(o.pending.value, o.st, again.message, oracle', limit');
    OpenedHasCheckpoint(s, a, req, env);
    CheckedByLatest(b, again);
    FinishedTurnAnswers(s, b, again, env');
  }

  lemma CheckedByLatest(a: App, req: TurnRequest)
    requires req.sessionId.Some? && Latest(a.tables, req.sessionId.value).Some?
    ensures PassesCheck(a, req)
  {}

  lemma CutOffIsNoReply(s: Settings, a: App, req: TurnRequest, env: Env)
    requires req.sessionId.None? && env.stream.ending != Finished
    requires Lookup(a.cache, DerivedKey(s, a, req, env), env.lookup).None?
    ensures AfterTurn(s, a, req, env).1 == LLMTimeout || AfterTurn(s, a, req, env).1 == ServerError
  {
    hide Lookup, KeyOf, Streamed, AfterGet;
  }

  /** Models that answer nothing of interest: the analyzer needs no data. */
  function Plain(fails: bool): nat -> G.Answers {
    _ => G.Answers(fails, "", false, None, _ => [], "", map[], "", "", false, "", "")
  }

  /** A turn whose graph makes these calls and yields these chunks, all at one moment. */
  function AtOnce(uuid: string, ops: seq<StreamOp>, chunks: seq<Chunk>, ending: Ending): Env {
    Env(uuid, 0.0, 0.0, 0.0, Stream(ops, chunks, ending), 0.0)
  }

  /** It does happen, for every pair of messages and every id: the analyzer fails in the first request and nothing
      fails in the second. */
  lemma CutOffTurnHappens(s: Settings, uuid: string, message: string, answer: string, limit: nat, o: G.Outcome,
                          o': G.Outcome, env: Env, env': Env, b: App)
    requires limit >= 2 && o == G.Start(message, Plain(true), limit)
    requires o' == G.Resume(o.pending, o.st, answer, Plain(false), limit)
    requires env == AtOnce(uuid, [Saved(Checkpoint(ChannelsOf(o.st, [], [], [])), 0.0)], StartChunks(o), Failed)
    requires env' == AtOnce(uuid, [], ResumeChunks(o'), Finished)
    requires b == AfterTurn(s, EmptyApp(), TurnRequest(None, message, None), env).0
    ensures AfterTurn(s, EmptyApp(), TurnRequest(None, message, None), env).1 == ServerError
    ensures AfterTurn(s, b, TurnRequest(Some(uuid), answer, None), env').1 == Ok(Reply(uuid, "", true, 0))
    ensures o'.pending == Some(G.WeightParser)
  {
    hide G.Leg, G.Compiled, G.Start, G.Resume, AfterTurn, Lookup, DerivedKey, StartChunks, ResumeChunks, ChannelsOf;
    var req, again := TurnRequest(None, message, None), TurnRequest(Some(uuid), answer, None);
    FirstLegFails(message, limit);
    SecondLegPauses(message, answer, limit);
    OneSave(o.st, env.stream.ops);
    TurnKeepsMessageless(s, EmptyApp(), req, env);
    NoMessagesCounted(b.tables, uuid);
    NothingCached(s, req, env);
    NothingFound(s, b, again, env');
    CutOffTurnSaysDone(s, EmptyApp(), req, env, Plain(true), limit, o, b, again, env', Plain(false), limit, o');
  }

  lemma FirstLegFails(message: string, limit: nat)
    requires limit > 0
    ensures var o := G.Start(message, Plain(true), limit);
            o.status == G.Raised && o.pending == Some(G.ContextAnalyzer) && o.st == G.InitialState(message)
  {
    hide G.Leg, G.Compiled;
    G.LegStep(G.ContextAnalyzer, G.InitialState(message), Plain(true), 0, limit);
  }

  lemma SecondLegPauses(message: string, answer: string, limit: nat)
    requires limit >= 2
    ensures G.Resume(Some(G.ContextAnalyzer), G.InitialState(message), answer, Plain(false), limit).status == G.Paused
  {
    hide G.Leg, G.Compiled, G.Follow;
    var st := G.InitialState(message).(userAnswer := Some(answer));
    G.LegStep(G.ContextAnalyzer, st, Plain(false), 0, limit);
    var st1 := G.Delta(G.ContextAnalyzer, st, Plain(false)(0));
    G.FollowCompiled(G.ContextAnalyzer, st1);
    G.RoutesDiffer();
    G.LegStep(G.WeightQuestioner, st1, Plain(false), 1, limit - 1);
    G.FollowCompiled(G.WeightQuestioner, G.Delta(G.WeightQuestioner, st1, Plain(false)(1)));
  }

  lemma OneSave(st: G.State, ops: seq<StreamOp>)
    requires ops == [Saved(Checkpoint(ChannelsOf(st, [], [], [])), 0.0)]
    ensures HasSave(ops) && SavesNone(ops)
  {
    hide ChannelsOf;
    GraphKeepsNoMessages(st, [], [], []);
    assert ops[0].Saved?;
  }

  /** With an empty cache nothing is found, and a failed turn leaves it empty. */
  lemma NothingCached(s: Settings, req: TurnRequest, env: Env)
    requires req.sessionId.None? && env.stream.ending == Failed
    ensures Lookup(EmptyApp().cache, DerivedKey(s, EmptyApp(), req, env), env.lookup).None?
    ensures AfterTurn(s, EmptyApp(), req, env).0.cache == [] && AfterTurn(s, EmptyApp(), req, env).1 == ServerError
  {
    hide KeyOf, Streamed;
  }

  lemma NothingFound(s: Settings, a: App, req: TurnRequest, env: Env)
    requires a.cache == []
    ensures Lookup(a.cache, DerivedKey(s, a, req, env), env.lookup).None?
  {
    hide DerivedKey;
  }
}
