/** What a client reads of a streamed turn, piece by piece: which text each block, message and update
    contributes, said over the graph's events alone. */
module StreamReading {
  import opened Stream

  // ---- Blocks ------------------------------------------------------------------------------------

  /** What a block says to the client, and what it gives away of the model's thinking: a bare string
      and the `text` of a text block are said; a thinking block is thought, under its own kind's name,
      or else as `thinking`, or else as `text`; no other block counts. */
  ghost predicate Contributes(b: Block, answer: string, thought: string) {
    match b
    case Bare(text) => answer == text && thought == ""
    case Tagged(kind, fields) =>
      if kind in ["thinking", "reasoning", "reasoning_content"] then
        && answer == ""
        && (kind in fields && fields[kind] != "" ==> thought == fields[kind])
        && (!(kind in fields && fields[kind] != "") && "thinking" in fields && fields["thinking"] != "" ==>
              thought == fields["thinking"])
        && (!(kind in fields && fields[kind] != "") && !("thinking" in fields && fields["thinking"] != "") ==>
              thought == if "text" in fields then fields["text"] else "")
      else
        && thought == ""
        && (kind == "text" && "text" in fields ==> answer == fields["text"])
        && (kind == "text" && "text" !in fields ==> answer == "")
        && (kind != "text" ==> answer == "")
  }

  /** A message with one more block says and thinks that much more, at the end; what rides alongside
      comes behind all thoughts. */
  lemma BlocksAddUp(m: Message, blocks: seq<Block>, b: Block) returns (answer: string, thought: string)
    requires !m.Other?
    ensures Contributes(b, answer, thought)
    ensures AnswerOf(m.(content := Blocks(blocks + [b]))) == AnswerOf(m.(content := Blocks(blocks))) + answer
    ensures ReasoningOf(m.(content := Blocks(blocks + [b])))
         == ReasoningOf(m.(content := Blocks(blocks), extra := "")) + thought + m.extra
  {
    answer, thought := BlockAnswer(b), BlockReasoning(b);
    assert (blocks + [b])[..|blocks|] == blocks;
  }

  /** A message without blocks is all answer, and thinks only what rides alongside. */
  lemma PlainMessagesAreAnswers(m: Message, text: string)
    requires !m.Other?
    ensures var plain, empty, none := m.(content := Plain(text)), m.(content := Blocks([])), m.(content := NoContent);
            && AnswerOf(plain) == text && ReasoningOf(plain) == m.extra
            && AnswerOf(empty) == "" && ReasoningOf(empty) == m.extra
            && AnswerOf(none) == "" && ReasoningOf(none) == m.extra
  {
  }

  // ---- Messages ----------------------------------------------------------------------------------

  /** What one more message adds to what the client has seen: nothing if it comes from an internal node
      or is no model message; of a chunk its thoughts and then its answer, each if there is any; of a
      whole reply with content its thoughts only. */
  ghost predicate Adds(e: GraphEvent, before: seq<Event>, after: seq<Event>)
    requires e.Messages?
  {
    var m := e.message;
    if e.hidden || m.Other? then after == before
    else
      && (m.Whole? && m.content in [NoContent, Plain(""), Blocks([])] ==> after == before)
      && (m.Whole? && m.content !in [NoContent, Plain(""), Blocks([])] ==>
            after == if ReasoningOf(m) == "" then before else before + [Reasoning(ReasoningOf(m))])
      && (m.Chunk? && ReasoningOf(m) == "" && AnswerOf(m) == "" ==> after == before)
      && (m.Chunk? && ReasoningOf(m) != "" && AnswerOf(m) == "" ==> after == before + [Reasoning(ReasoningOf(m))])
      && (m.Chunk? && ReasoningOf(m) == "" && AnswerOf(m) != "" ==>
            after == before + [ContentEvent(Answer(AnswerOf(m)))])
      && (m.Chunk? && ReasoningOf(m) != "" && AnswerOf(m) != "" ==>
            after == before + [Reasoning(ReasoningOf(m)), ContentEvent(Answer(AnswerOf(m)))])
  }

  lemma MessagesAdd(events: seq<GraphEvent>, e: GraphEvent)
    requires e.Messages?
    ensures Adds(e, Live(events), Live(events + [e]))
  {
    assert (events + [e])[..|events|] == events;
  }

  // ---- The content of the turn -------------------------------------------------------------------

  /** A chunk a client sees, that says something. */
  ghost predicate Speaks(e: GraphEvent) {
    e.Messages? && !e.hidden && e.message.Chunk? && AnswerOf(e.message) != ""
  }

  /** A whole reply a client may have to be shown. */
  ghost predicate Replies(e: GraphEvent) {
    && e.Messages? && !e.hidden && e.message.Whole?
    && e.message.content !in [NoContent, Plain(""), Blocks([])]
  }

  /** What a reply stands for: its answer if it has one, else its blocks. */
  ghost predicate StandsFor(m: Message, data: Data)
    requires m.Whole?
  {
    && (AnswerOf(m) != "" ==> data == Answer(AnswerOf(m)))
    && (AnswerOf(m) == "" ==> m.content.Blocks? && data == Raw(m.content.blocks))
  }

  lemma {:induction false} AnswersAreSpoken(events: seq<GraphEvent>)
    ensures ChunkAnswers(events) == [] <==> forall i | 0 <= i < |events| :: !Speaks(events[i])
    decreases |events|
  {
    if events != [] { AnswersAreSpoken(events[..|events| - 1]); }
  }

  /** One more event and the answers: what it says if it speaks, nothing if it does not. */
  lemma OneMoreAnswer(events: seq<GraphEvent>, e: GraphEvent)
    ensures ChunkAnswers(events + [e])
         == if Speaks(e) then ChunkAnswers(events) + [AnswerOf(e.message)] else ChunkAnswers(events)
  {
    assert (events + [e])[..|events|] == events;
  }

  /** The last reply, and none behind it. */
  ghost predicate LastReplyAt(events: seq<GraphEvent>, i: nat, data: Data) {
    && i < |events| && Replies(events[i]) && StandsFor(events[i].message, data)
    && forall j | i < j < |events| :: !Replies(events[j])
  }

  lemma LastReplyMovesOn(events: seq<GraphEvent>, e: GraphEvent, i: nat, data: Data)
    requires LastReplyAt(events, i, data) && !Replies(e)
    ensures LastReplyAt(events + [e], i, data)
  {
  }

  lemma {:induction false} LastReplyStands(events: seq<GraphEvent>)
    ensures LastReply(events) == Nothing <==> forall i | 0 <= i < |events| :: !Replies(events[i])
    ensures LastReply(events).Reply? ==> exists i: nat :: LastReplyAt(events, i, LastReply(events).data)
    decreases |events|
  {
    if events != [] {
      var before, e := events[..|events| - 1], events[|events| - 1];
      assert events == before + [e];
      LastReplyStands(before);
      if IsReply(e) {
        assert LastReplyAt(events, |before|, LastReply(events).data);
      } else if LastReply(before).Reply? {
        var i: nat :| LastReplyAt(before, i, LastReply(before).data);
        LastReplyMovesOn(before, e, i, LastReply(before).data);
      }
    }
  }

  /** The content of a finished turn, outright: as soon as some visible chunk speaks, what the chunks
      say; else what the last visible reply stands for; else nothing. */
  lemma ContentOutright(events: seq<GraphEvent>)
    ensures var shown := Contents(Transcript(events));
            && ((exists i :: 0 <= i < |events| && Speaks(events[i])) ==> shown == AsData(ChunkAnswers(events)))
            && ((forall i | 0 <= i < |events| :: !Speaks(events[i]) && !Replies(events[i])) ==> shown == [])
            && ((forall i | 0 <= i < |events| :: !Speaks(events[i]))
                && (exists i :: 0 <= i < |events| && Replies(events[i])) ==>
                  exists i: nat, data :: LastReplyAt(events, i, data) && shown == [data])
  {
    ContentIsTheAnswer(events);
    AnswersAreSpoken(events);
    LastReplyStands(events);
  }

  /** A chunk that speaks is shown behind whatever chunks showed before. */
  lemma SpokenIsShown(events: seq<GraphEvent>, e: GraphEvent)
    requires Speaks(e)
    ensures Contents(Transcript(events + [e])) == AsData(ChunkAnswers(events)) + [Answer(AnswerOf(e.message))]
  {
    OneMoreAnswer(events, e);
    ContentIsTheAnswer(events + [e]);
    AsDataAppend(ChunkAnswers(events), [AnswerOf(e.message)]);
  }

  /** The text of a block reaches the client: a visible chunk with one more text block shows that text
      behind what the chunk says without it, and everything shown before stays. */
  lemma TextReachesTheClient(events: seq<GraphEvent>, blocks: seq<Block>, text: string, extra: string)
    requires text != ""
    ensures var e := Messages(Chunk(Blocks(blocks + [Tagged("text", map["text" := text])]), extra), false);
            Contents(Transcript(events + [e]))
            == AsData(ChunkAnswers(events)) + [Answer(AnswerOf(Chunk(Blocks(blocks), extra)) + text)]
  {
    var b := Tagged("text", map["text" := text]);
    var answer, thought := BlocksAddUp(Chunk(NoContent, extra), blocks, b);
    SpokenIsShown(events, Messages(Chunk(Blocks(blocks + [b]), extra), false));
  }

  // ---- Pauses --------------------------------------------------------------------------------------

  /** The interrupts last reported are those that count, none reported meaning none. */
  lemma LastWordOnInterrupts(events: seq<GraphEvent>, updates: seq<Update>, e: GraphEvent, reported: seq<string>)
    ensures Interrupts([]) == []
    ensures e.Messages? ==> Interrupts(events + [e]) == Interrupts(events)
    ensures Interrupts(events + [Updates([])]) == Interrupts(events)
    ensures Interrupts(events + [Updates(updates + [Interrupt(reported)])]) == reported
    ensures forall u: Update | !u.Interrupt? ::
              Interrupts(events + [Updates(updates + [u])]) == Interrupts(events + [Updates(updates)])
  {
    forall x: GraphEvent ensures (events + [x])[..|events|] == events {}
    assert (updates + [Interrupt(reported)])[..|updates|] == updates;
    forall u: Update | !u.Interrupt?
      ensures Interrupts(events + [Updates(updates + [u])]) == Interrupts(events + [Updates(updates)])
    {
      assert (updates + [u])[..|updates|] == updates;
    }
  }

  // ---- Tool traffic --------------------------------------------------------------------------------

  /** The tool events of an output. */
  function Traffic(out: seq<Event>): seq<Event> {
    if out == [] then []
    else
      var e := out[|out| - 1];
      Traffic(out[..|out| - 1]) + (if e.ToolCallEvent? || e.ToolResultEvent? then [e] else [])
  }

  lemma {:induction false} TrafficAppend(a: seq<Event>, b: seq<Event>)
    ensures Traffic(a + b) == Traffic(a) + Traffic(b)
    decreases |b|
  {
    if b == [] {
      assert a + b == a;
    } else {
      TrafficAppend(a, b[..|b| - 1]);
      assert (a + b)[..|a + b| - 1] == a + b[..|b| - 1];
    }
  }

  /** A message reports the result it is, if it is one, and then its calls, one event each, in order. */
  function Reported(p: Produced): (out: seq<Event>)
    ensures |out| == (if p.result.Result? then 1 else 0) + |p.calls|
    ensures p.result.Result? ==> out[0] == ToolResultEvent(p.result.tool, p.result.result)
    ensures forall i | 0 <= i < |p.calls| ::
              out[(if p.result.Result? then 1 else 0) + i] == ToolCallEvent(p.calls[i].tool, p.calls[i].args)
  {
    CallsAt(p.calls);
    ResultEvents(p.result) + CallEvents(p.calls)
  }

  lemma {:induction false} CallsAt(calls: seq<ToolCall>)
    ensures |CallEvents(calls)| == |calls|
    ensures forall i | 0 <= i < |calls| :: CallEvents(calls)[i] == ToolCallEvent(calls[i].tool, calls[i].args)
    decreases |calls|
  {
    if calls != [] { CallsAt(calls[..|calls| - 1]); }
  }

  /** Tool traffic and nothing else. */
  ghost predicate AllTraffic(out: seq<Event>) {
    forall e | e in out :: e.ToolCallEvent? || e.ToolResultEvent?
  }

  lemma {:induction false} TrafficOfTraffic(out: seq<Event>)
    requires AllTraffic(out)
    ensures Traffic(out) == out
    decreases |out|
  {
    if out != [] {
      assert out == out[..|out| - 1] + [out[|out| - 1]];
      TrafficOfTraffic(out[..|out| - 1]);
    }
  }

  lemma {:induction false} NoTraffic(out: seq<Event>)
    requires forall e | e in out :: !e.ToolCallEvent? && !e.ToolResultEvent?
    ensures Traffic(out) == []
    decreases |out|
  {
    if out != [] { NoTraffic(out[..|out| - 1]); }
  }

  lemma {:induction false} ProducedIsTraffic(messages: seq<Produced>)
    ensures AllTraffic(ProducedEvents(messages))
    decreases |messages|
  {
    if messages != [] {
      var before, p := messages[..|messages| - 1], messages[|messages| - 1];
      ProducedIsTraffic(before);
      CallsAt(p.calls);
    }
  }

  lemma {:induction false} UpdatesAreTraffic(updates: seq<Update>)
    ensures AllTraffic(UpdateEvents(updates))
    decreases |updates|
  {
    if updates != [] {
      var before, u := updates[..|updates| - 1], updates[|updates| - 1];
      UpdatesAreTraffic(before);
      if u.Node? { ProducedIsTraffic(u.messages); }
    }
  }

  lemma MessagesAreSilent(e: GraphEvent)
    requires e.Messages?
    ensures Traffic(EventsOf(e)) == []
  {
    NoTraffic(EventsOf(e));
  }

  lemma LiveTraffic(events: seq<GraphEvent>, e: GraphEvent)
    ensures Traffic(Live(events + [e]))
         == Traffic(Live(events)) + if e.Updates? then UpdateEvents(e.updates) else []
  {
    assert (events + [e])[..|events|] == events;
    TrafficAppend(Live(events), EventsOf(e));
    if e.Updates? {
      UpdatesAreTraffic(e.updates);
      TrafficOfTraffic(UpdateEvents(e.updates));
    } else {
      MessagesAreSilent(e);
    }
  }

  /** The closing of a turn adds no tool traffic. */
  lemma ClosingIsSilent(events: seq<GraphEvent>)
    ensures Traffic(Transcript(events)) == Traffic(Live(events))
  {
    TrafficAppend(Live(events), Closing(events));
    TrafficAppend(Fallen(events) + Pause(events), [Done]);
    TrafficAppend(Fallen(events), Pause(events));
    NoTraffic(Fallen(events));
    NoTraffic(Pause(events));
    NoTraffic([Done]);
  }

  lemma TrafficIs(events: seq<GraphEvent>, e: GraphEvent)
    ensures Traffic(Transcript(events + [e]))
         == Traffic(Transcript(events)) + if e.Updates? then UpdateEvents(e.updates) else []
  {
    LiveTraffic(events, e);
    ClosingIsSilent(events);
    ClosingIsSilent(events + [e]);
  }

  lemma OneMoreUpdate(updates: seq<Update>, u: Update)
    ensures UpdateEvents(updates + [u]) == UpdateEvents(updates) + if u.Node? then ProducedEvents(u.messages) else []
  {
    assert (updates + [u])[..|updates|] == updates;
  }

  lemma OneMoreMessage(updates: seq<Update>, messages: seq<Produced>, p: Produced)
    ensures UpdateEvents(updates + [Node(messages + [p])]) == UpdateEvents(updates + [Node(messages)]) + Reported(p)
  {
    OneMoreUpdate(updates, Node(messages));
    OneMoreUpdate(updates, Node(messages + [p]));
    assert (messages + [p])[..|messages|] == messages;
    Regroup(UpdateEvents(updates), ProducedEvents(messages), Reported(p));
  }

  lemma Regroup(a: seq<Event>, b: seq<Event>, c: seq<Event>)
    ensures a + (b + c) == (a + b) + c
  {
  }

  /** Of an update the client hears, node by node and message by message, each result and then each
      call, under its name and with its arguments ... */
  lemma ToolsAreReported(events: seq<GraphEvent>, updates: seq<Update>, messages: seq<Produced>, p: Produced)
    ensures Traffic(Transcript(events + [Updates(updates + [Node(messages + [p])])]))
         == Traffic(Transcript(events + [Updates(updates + [Node(messages)])])) + Reported(p)
  {
    TrafficIs(events, Updates(updates + [Node(messages)]));
    TrafficIs(events, Updates(updates + [Node(messages + [p])]));
    OneMoreMessage(updates, messages, p);
    Regroup(Traffic(Transcript(events)), UpdateEvents(updates + [Node(messages)]), Reported(p));
  }

  /** ... and of nothing else anything: not of messages, of interrupts, of bookkeeping, or of an empty
      update. */
  lemma NothingElseIsReported(events: seq<GraphEvent>, e: GraphEvent, updates: seq<Update>, u: Update)
    requires e.Messages? || e == Updates([])
    requires !u.Node? || u.messages == []
    ensures Traffic(Transcript([])) == []
    ensures Traffic(Transcript(events + [e])) == Traffic(Transcript(events))
    ensures Traffic(Transcript(events + [Updates(updates + [u])])) == Traffic(Transcript(events + [Updates(updates)]))
  {
    ClosingIsSilent([]);
    TrafficIs(events, e);
    TrafficIs(events, Updates(updates));
    TrafficIs(events, Updates(updates + [u]));
    OneMoreUpdate(updates, u);
  }
}
