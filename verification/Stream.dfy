/** One streamed turn: graph events in, client events out. */
module Stream {
  datatype Block = Bare(text: string) | Tagged(kind: string, fields: map<string, string>)

  /** A message's content; the empty string and the empty list are falsy, like no content. */
  datatype Content = NoContent | Plain(text: string) | Blocks(blocks: seq<Block>)

  /** `extra` is the out-of-band `reasoning_content`, empty when there is none. */
  datatype Message = Chunk(content: Content, extra: string) | Whole(content: Content, extra: string) | Other

  datatype ToolCall = ToolCall(tool: string, args: string)
  datatype ToolResult = NoResult | Result(tool: string, result: string)
  datatype Produced = Produced(result: ToolResult, calls: seq<ToolCall>)
  datatype Update = Interrupt(interrupts: seq<string>) | Node(messages: seq<Produced>) | Bookkeeping

  /** `hidden`: the message comes from one of the agent's internal nodes. */
  datatype GraphEvent = Updates(updates: seq<Update>) | Messages(message: Message, hidden: bool)

  datatype Ending = Finished | Raised(error: string, provider: bool)
  datatype Failure = NoFailure | ModelError(error: string) | Original(error: string)

  /** An answer's text, or the block list of a reply without one. */
  datatype Data = Answer(text: string) | Raw(blocks: seq<Block>)
  datatype Event =
    | ToolResultEvent(tool: string, result: string)
    | ToolCallEvent(tool: string, args: string)
    | Reasoning(text: string)
    | ContentEvent(data: Data)
    | Paused(interrupts: seq<string>)
    | Done

  datatype Fallback = Nothing | Reply(data: Data)

  // ---- Splitting one message -------------------------------------------------------------------

  const REASONING_BLOCKS := {"thinking", "reasoning", "reasoning_content"}

  function Field(fields: map<string, string>, name: string): string {
    if name in fields then fields[name] else ""
  }

  function Or(first: string, second: string): string {
    if first != "" then first else second
  }

  predicate IsReasoning(b: Block) {
    b.Tagged? && b.kind in REASONING_BLOCKS
  }

  function BlockReasoning(b: Block): string {
    if IsReasoning(b) then Or(Field(b.fields, b.kind), Or(Field(b.fields, "thinking"), Field(b.fields, "text"))) else ""
  }

  function BlockAnswer(b: Block): string {
    match b
    case Bare(text) => text
    case Tagged(kind, fields) => if kind == "text" then Field(fields, "text") else ""
  }

  function Thoughts(blocks: seq<Block>): string {
    if blocks == [] then "" else Thoughts(blocks[..|blocks| - 1]) + BlockReasoning(blocks[|blocks| - 1])
  }

  function Answers(blocks: seq<Block>): string {
    if blocks == [] then "" else Answers(blocks[..|blocks| - 1]) + BlockAnswer(blocks[|blocks| - 1])
  }

  function ReasoningOf(m: Message): string
    requires !m.Other?
  {
    (if m.content.Blocks? then Thoughts(m.content.blocks) else "") + m.extra
  }

  function AnswerOf(m: Message): string
    requires !m.Other?
  {
    match m.content
    case NoContent => ""
    case Plain(text) => text
    case Blocks(blocks) => Answers(blocks)
  }

  method SplitReasoning(m: Message) returns (reasoning: string, answer: string)
    requires !m.Other?
    ensures reasoning == ReasoningOf(m) && answer == AnswerOf(m)
  {
    reasoning, answer := "", "";
    match m.content {
      case NoContent =>
      case Plain(text) => answer := text;
      case Blocks(blocks) =>
        for n := 0 to |blocks|
          invariant reasoning == Thoughts(blocks[..n]) && answer == Answers(blocks[..n])
        {
          assert blocks[..n + 1][..n] == blocks[..n];
          match blocks[n] {
            case Bare(text) => answer := answer + text;
            case Tagged(kind, fields) =>
              if kind in REASONING_BLOCKS {
                reasoning := reasoning + Or(Field(fields, kind), Or(Field(fields, "thinking"), Field(fields, "text")));
              } else if kind == "text" {
                answer := answer + Field(fields, "text");
              }
          }
        }
        assert blocks[..|blocks|] == blocks;
    }
    if m.extra != "" {
      reasoning := reasoning + m.extra;
    }
  }

  predicate HasContent(m: Message)
    requires !m.Other?
  {
    match m.content
    case NoContent => false
    case Plain(text) => text != ""
    case Blocks(blocks) => blocks != []
  }

  // ---- The whole turn, as a specification --------------------------------------------------------

  function CallEvents(calls: seq<ToolCall>): seq<Event> {
    if calls == [] then []
    else CallEvents(calls[..|calls| - 1]) + [ToolCallEvent(calls[|calls| - 1].tool, calls[|calls| - 1].args)]
  }

  function ResultEvents(result: ToolResult): seq<Event> {
    match result case NoResult => [] case Result(tool, text) => [ToolResultEvent(tool, text)]
  }

  function ProducedEvents(messages: seq<Produced>): seq<Event> {
    if messages == [] then []
    else
      var p := messages[|messages| - 1];
      ProducedEvents(messages[..|messages| - 1]) + (ResultEvents(p.result) + CallEvents(p.calls))
  }

  function UpdateEvents(updates: seq<Update>): seq<Event> {
    if updates == [] then []
    else
      var u := updates[|updates| - 1];
      UpdateEvents(updates[..|updates| - 1]) + (if u.Node? then ProducedEvents(u.messages) else [])
  }

  function ReasoningEvents(text: string): seq<Event> {
    if text == "" then [] else [Reasoning(text)]
  }

  function AnswerEvents(text: string): seq<Event> {
    if text == "" then [] else [ContentEvent(Answer(text))]
  }

  function MessageEvents(m: Message): seq<Event> {
    match m
    case Chunk(_, _) => ReasoningEvents(ReasoningOf(m)) + AnswerEvents(AnswerOf(m))
    case Whole(_, _) => if HasContent(m) then ReasoningEvents(ReasoningOf(m)) else []
    case Other => []
  }

  function EventsOf(e: GraphEvent): seq<Event> {
    match e
    case Updates(updates) => UpdateEvents(updates)
    case Messages(m, hidden) => if hidden then [] else MessageEvents(m)
  }

  /** What a client sees while the graph runs. */
  function Live(events: seq<GraphEvent>): seq<Event> {
    if events == [] then [] else Live(events[..|events| - 1]) + EventsOf(events[|events| - 1])
  }

  /** The answer piece a chunk of a visible node carries. */
  function ChunkAnswer(e: GraphEvent): seq<string> {
    if e.Messages? && !e.hidden && e.message.Chunk? && AnswerOf(e.message) != "" then [AnswerOf(e.message)] else []
  }

  function ChunkAnswers(events: seq<GraphEvent>): seq<string> {
    if events == [] then [] else ChunkAnswers(events[..|events| - 1]) + ChunkAnswer(events[|events| - 1])
  }

  predicate IsReply(e: GraphEvent) {
    e.Messages? && !e.hidden && e.message.Whole? && HasContent(e.message)
  }

  /** What a whole reply is remembered as. */
  function ReplyData(m: Message): Data
    requires m.Whole? && HasContent(m)
  {
    if AnswerOf(m) != "" then Answer(AnswerOf(m)) else Raw(m.content.blocks)
  }

  /** The last whole reply of a visible node. */
  function LastReply(events: seq<GraphEvent>): Fallback {
    if events == [] then Nothing
    else if IsReply(events[|events| - 1]) then Reply(ReplyData(events[|events| - 1].message))
    else LastReply(events[..|events| - 1])
  }

  function LastInterrupt(updates: seq<Update>, before: seq<string>): seq<string>
    decreases |updates|
  {
    if updates == [] then before
    else if updates[|updates| - 1].Interrupt? then updates[|updates| - 1].interrupts
    else LastInterrupt(updates[..|updates| - 1], before)
  }

  /** The interrupts last reported, none if none was. */
  function Interrupts(events: seq<GraphEvent>): seq<string> {
    if events == [] then []
    else
      var e := events[|events| - 1];
      var before := Interrupts(events[..|events| - 1]);
      if e.Updates? then LastInterrupt(e.updates, before) else before
  }

  /** The last whole reply, sent when no chunk carried an answer. */
  function Fallen(events: seq<GraphEvent>): seq<Event> {
    if ChunkAnswers(events) == [] && LastReply(events).Reply? then [ContentEvent(LastReply(events).data)] else []
  }

  function Pause(events: seq<GraphEvent>): seq<Event> {
    if Interrupts(events) != [] then [Paused(Interrupts(events))] else []
  }

  /** What follows once the graph has ended. */
  function Closing(events: seq<GraphEvent>): seq<Event> {
    Fallen(events) + Pause(events) + [Done]
  }

  function Transcript(events: seq<GraphEvent>): seq<Event> {
    Live(events) + Closing(events)
  }

  // ---- The loop --------------------------------------------------------------------------------

  method ReportProduced(messages: seq<Produced>) returns (out: seq<Event>)
    ensures out == ProducedEvents(messages)
  {
    out := [];
    for n := 0 to |messages|
      invariant out == ProducedEvents(messages[..n])
    {
      assert messages[..n + 1][..n] == messages[..n];
      var p := messages[n];
      ghost var before := out;
      if p.result.Result? {
        out := out + [ToolResultEvent(p.result.tool, p.result.result)];
      }
      for k := 0 to |p.calls|
        invariant out == before + (ResultEvents(p.result) + CallEvents(p.calls[..k]))
      {
        assert p.calls[..k + 1][..k] == p.calls[..k];
        out := out + [ToolCallEvent(p.calls[k].tool, p.calls[k].args)];
      }
      assert p.calls[..|p.calls|] == p.calls;
    }
    assert messages[..|messages|] == messages;
  }

  method ReportUpdates(updates: seq<Update>, before: seq<string>) returns (out: seq<Event>, interrupts: seq<string>)
    ensures out == UpdateEvents(updates) && interrupts == LastInterrupt(updates, before)
  {
    out, interrupts := [], before;
    for n := 0 to |updates|
      invariant out == UpdateEvents(updates[..n]) && interrupts == LastInterrupt(updates[..n], before)
    {
      assert updates[..n + 1][..n] == updates[..n];
      match updates[n] {
        case Interrupt(reported) => interrupts := reported;
        case Node(messages) =>
          var more := ReportProduced(messages);
          out := out + more;
        case Bookkeeping =>
      }
    }
    assert updates[..|updates|] == updates;
  }

  method StreamGraph(events: seq<GraphEvent>, ending: Ending) returns (out: seq<Event>, failure: Failure)
    ensures ending.Finished? ==> out == Transcript(events) && failure == NoFailure
    ensures ending.Raised? ==> out == Live(events)
    ensures ending.Raised? ==> failure == if ending.provider then ModelError(ending.error) else Original(ending.error)
  {
    out := [];
    var streamed := false;
    var lastFull := Nothing;
    var interrupted: seq<string> := [];
    for n := 0 to |events|
      invariant out == Live(events[..n])
      invariant streamed == (ChunkAnswers(events[..n]) != [])
      invariant lastFull == LastReply(events[..n]) && interrupted == Interrupts(events[..n])
    {
      assert events[..n + 1][..n] == events[..n];
      match events[n] {
        case Updates(updates) =>
          var more, reported := ReportUpdates(updates, interrupted);
          out, interrupted := out + more, reported;
        case Messages(m, hidden) =>
          if !hidden {
            var more, answered, full := ReportMessage(m);
            out, streamed := out + more, streamed || answered;
            if full.Reply? {
              lastFull := full;
            }
          }
      }
    }
    assert events[..|events|] == events;
    match ending {
      case Raised(error, provider) =>
        failure := if provider then ModelError(error) else Original(error);
      case Finished =>
        failure := NoFailure;
        out := Close(out, streamed, lastFull, interrupted);
    }
  }

  method Close(live: seq<Event>, streamed: bool, lastFull: Fallback, interrupted: seq<string>) returns (out: seq<Event>)
    ensures out == live + ((if !streamed && lastFull.Reply? then [ContentEvent(lastFull.data)] else [])
                           + (if interrupted != [] then [Paused(interrupted)] else []) + [Done])
  {
    out := live;
    if !streamed && lastFull.Reply? {
      out := out + [ContentEvent(lastFull.data)];
    }
    if interrupted != [] {
      out := out + [Paused(interrupted)];
    }
    out := out + [Done];
  }

  method ReportMessage(m: Message) returns (out: seq<Event>, answered: bool, full: Fallback)
    ensures out == MessageEvents(m)
    ensures answered == (m.Chunk? && AnswerOf(m) != "")
    ensures full == if m.Whole? && HasContent(m) then Reply(ReplyData(m)) else Nothing
  {
    out, answered, full := [], false, Nothing;
    if m.Chunk? {
      if HasContent(m) || m.extra != "" {
        var reasoning, answer := SplitReasoning(m);
        if reasoning != "" {
          out := out + [Reasoning(reasoning)];
        }
        if answer != "" {
          answered := true;
          out := out + [ContentEvent(Answer(answer))];
        }
      }
    } else if m.Whole? && HasContent(m) {
      var reasoning, answer := SplitReasoning(m);
      if reasoning != "" {
        out := out + [Reasoning(reasoning)];
      }
      full := Reply(if answer != "" then Answer(answer) else Raw(m.content.blocks));
    }
  }

  // ---- What the client may rely on ---------------------------------------------------------------

  /** The content a client has shown once it has read `out`. */
  function Contents(out: seq<Event>): seq<Data> {
    if out == [] then []
    else Contents(out[..|out| - 1]) + (if out[|out| - 1].ContentEvent? then [out[|out| - 1].data] else [])
  }

  function AsData(answers: seq<string>): seq<Data> {
    seq(|answers|, i requires 0 <= i < |answers| => Answer(answers[i]))
  }

  lemma {:induction false} ContentsAppend(a: seq<Event>, b: seq<Event>)
    ensures Contents(a + b) == Contents(a) + Contents(b)
    decreases |b|
  {
    if b == [] {
      assert a + b == a;
    } else {
      ContentsAppend(a, b[..|b| - 1]);
      assert (a + b)[..|a + b| - 1] == a + b[..|b| - 1];
    }
  }

  /** Nothing that tool traffic reports is content, a pause or an end. */
  predicate Quiet(out: seq<Event>) {
    forall e | e in out :: !e.Paused? && !e.Done?
  }

  lemma {:induction false} CallsAreQuiet(calls: seq<ToolCall>)
    ensures Quiet(CallEvents(calls)) && Contents(CallEvents(calls)) == []
    decreases |calls|
  {
    if calls != [] { CallsAreQuiet(calls[..|calls| - 1]); }
  }

  lemma {:induction false} ProducedIsQuiet(messages: seq<Produced>)
    ensures Quiet(ProducedEvents(messages)) && Contents(ProducedEvents(messages)) == []
    decreases |messages|
  {
    if messages != [] {
      var before, p := messages[..|messages| - 1], messages[|messages| - 1];
      ProducedIsQuiet(before);
      CallsAreQuiet(p.calls);
      ContentsAppend(ResultEvents(p.result), CallEvents(p.calls));
      ContentsAppend(ProducedEvents(before), ResultEvents(p.result) + CallEvents(p.calls));
    }
  }

  lemma {:induction false} UpdatesAreQuiet(updates: seq<Update>)
    ensures Quiet(UpdateEvents(updates)) && Contents(UpdateEvents(updates)) == []
    decreases |updates|
  {
    if updates != [] {
      var before, u := updates[..|updates| - 1], updates[|updates| - 1];
      UpdatesAreQuiet(before);
      if u.Node? {
        ProducedIsQuiet(u.messages);
        ContentsAppend(UpdateEvents(before), ProducedEvents(u.messages));
      } else {
        assert UpdateEvents(updates) == UpdateEvents(before);
      }
    }
  }

  lemma MessageContents(m: Message)
    ensures Quiet(MessageEvents(m))
    ensures Contents(MessageEvents(m)) == if m.Chunk? && AnswerOf(m) != "" then [Answer(AnswerOf(m))] else []
  {
    if m.Chunk? {
      ContentsAppend(ReasoningEvents(ReasoningOf(m)), AnswerEvents(AnswerOf(m)));
    }
  }

  lemma EventContents(e: GraphEvent)
    ensures Quiet(EventsOf(e)) && Contents(EventsOf(e)) == AsData(ChunkAnswer(e))
  {
    match e {
      case Updates(updates) => UpdatesAreQuiet(updates);
      case Messages(m, hidden) => MessageContents(m);
    }
  }

  lemma AsDataAppend(a: seq<string>, b: seq<string>)
    ensures AsData(a + b) == AsData(a) + AsData(b)
  {
  }

  /** While the graph runs, the content is the chunk answers, in order. */
  lemma {:induction false} LiveContents(events: seq<GraphEvent>)
    ensures Quiet(Live(events)) && Contents(Live(events)) == AsData(ChunkAnswers(events))
    decreases |events|
  {
    if events != [] {
      var before, e := events[..|events| - 1], events[|events| - 1];
      LiveContents(before);
      EventContents(e);
      ContentsAppend(Live(before), EventsOf(e));
      AsDataAppend(ChunkAnswers(before), ChunkAnswer(e));
    }
  }

  lemma ContentOfOne(e: Event)
    ensures Contents([e]) == if e.ContentEvent? then [e.data] else []
  {
    assert [e][..0] == [];
  }

  lemma ClosingContents(events: seq<GraphEvent>)
    ensures Contents(Closing(events)) == if Fallen(events) != [] then [LastReply(events).data] else []
  {
    ContentsAppend(Fallen(events) + Pause(events), [Done]);
    ContentsAppend(Fallen(events), Pause(events));
    ContentOfOne(Done);
    ContentOfOne(Paused(Interrupts(events)));
    if Fallen(events) != [] { ContentOfOne(ContentEvent(LastReply(events).data)); }
  }

  /** Over the whole turn the content is the chunk answers or, when there are none, the last whole
      reply: never both, and nothing only when there was neither. */
  lemma ContentIsTheAnswer(events: seq<GraphEvent>)
    ensures Contents(Transcript(events))
         == if ChunkAnswers(events) != [] then AsData(ChunkAnswers(events))
            else if LastReply(events).Reply? then [LastReply(events).data]
            else []
  {
    LiveContents(events);
    ClosingContents(events);
    ContentsAppend(Live(events), Closing(events));
  }

  /** The marks a well-ended output carries: one `done`, at the end, and a pause right before it
      or none at all. */
  ghost predicate EndsWell(out: seq<Event>, interrupts: seq<string>) {
    && out != []
    && (forall i | 0 <= i < |out| :: out[i].Done? <==> i == |out| - 1)
    && (forall i | 0 <= i < |out| :: out[i].Paused? <==> i == |out| - 2 && interrupts != [])
    && (interrupts != [] ==> |out| >= 2 && out[|out| - 2] == Paused(interrupts))
  }

  /** A turn ends with its only `done`; a pause comes right before it, exactly when the graph's last
      word on interrupts was that there are some. */
  lemma EndsOnce(events: seq<GraphEvent>)
    ensures EndsWell(Transcript(events), Interrupts(events))
  {
    LiveContents(events);
    ClosingEndsWell(events);
    QuietKeepsTheEnd(Live(events), Closing(events), Interrupts(events));
  }

  lemma ClosingEndsWell(events: seq<GraphEvent>)
    ensures EndsWell(Closing(events), Interrupts(events))
  {
  }

  lemma QuietKeepsTheEnd(live: seq<Event>, closing: seq<Event>, interrupts: seq<string>)
    requires Quiet(live) && EndsWell(closing, interrupts)
    ensures EndsWell(live + closing, interrupts)
  {
    var out := live + closing;
    forall i | 0 <= i < |live| ensures !out[i].Done? && !out[i].Paused? {
      assert out[i] in live;
    }
  }

  /** What has been shown is never taken back: a longer run, and the end of it, only add. */
  lemma {:induction false} LiveOnlyGrows(events: seq<GraphEvent>, more: seq<GraphEvent>)
    ensures Live(events) <= Live(events + more) <= Transcript(events + more)
    decreases |more|
  {
    if more == [] {
      assert events + more == events;
    } else {
      LiveOnlyGrows(events, more[..|more| - 1]);
      assert (events + more)[..|events + more| - 1] == events + more[..|more| - 1];
    }
  }

  // ---- Reasoning stays out of the answer ---------------------------------------------------------

  function WithoutThoughts(blocks: seq<Block>): seq<Block> {
    if blocks == [] then []
    else
      WithoutThoughts(blocks[..|blocks| - 1])
      + (if IsReasoning(blocks[|blocks| - 1]) then [] else [blocks[|blocks| - 1]])
  }

  /** The message had its model not thought at all. */
  function Unthought(m: Message): Message {
    if m.Other? then m
    else
      var content := if m.content.Blocks? then Blocks(WithoutThoughts(m.content.blocks)) else m.content;
      m.(content := content, extra := "")
  }

  function UnthoughtEvent(e: GraphEvent): GraphEvent {
    if e.Messages? then e.(message := Unthought(e.message)) else e
  }

  function UnthoughtAll(events: seq<GraphEvent>): seq<GraphEvent> {
    if events == [] then [] else UnthoughtAll(events[..|events| - 1]) + [UnthoughtEvent(events[|events| - 1])]
  }

  lemma {:induction false} AnswersWithoutThoughts(blocks: seq<Block>)
    ensures Answers(WithoutThoughts(blocks)) == Answers(blocks) && Thoughts(WithoutThoughts(blocks)) == ""
    decreases |blocks|
  {
    if blocks != [] {
      var before, b := blocks[..|blocks| - 1], blocks[|blocks| - 1];
      var kept := WithoutThoughts(before);
      AnswersWithoutThoughts(before);
      if IsReasoning(b) {
        assert WithoutThoughts(blocks) == kept;
      } else {
        assert (kept + [b])[..|kept|] == kept;
      }
    }
  }

  lemma {:induction false} ThoughtlessStaysWhole(blocks: seq<Block>)
    ensures |WithoutThoughts(blocks)| <= |blocks|
    ensures WithoutThoughts(blocks) == blocks <==> forall b | b in blocks :: !IsReasoning(b)
    decreases |blocks|
  {
    if blocks != [] {
      var before, b := blocks[..|blocks| - 1], blocks[|blocks| - 1];
      ThoughtlessStaysWhole(before);
      assert blocks == before + [b];
    }
  }

  /** Every message splits cleanly: without its thoughts it has the same answer and no reasoning. */
  lemma UnthoughtSplits(m: Message)
    requires !m.Other?
    ensures AnswerOf(Unthought(m)) == AnswerOf(m) && ReasoningOf(Unthought(m)) == ""
  {
    if m.content.Blocks? { AnswersWithoutThoughts(m.content.blocks); }
  }

  /** The one leak: no chunk carried an answer, and the last whole reply is a block list with
      thoughts in it and no answer. The engine then sends that list as it is. */
  ghost predicate Leaks(events: seq<GraphEvent>) {
    && ChunkAnswers(events) == []
    && LastReply(events).Reply? && LastReply(events).data.Raw?
    && exists b :: b in LastReply(events).data.blocks && IsReasoning(b)
  }

  lemma {:induction false} ChunkAnswersUnthought(events: seq<GraphEvent>)
    ensures ChunkAnswers(UnthoughtAll(events)) == ChunkAnswers(events)
    decreases |events|
  {
    if events != [] {
      var before, e := events[..|events| - 1], events[|events| - 1];
      ChunkAnswersUnthought(before);
      var all := UnthoughtAll(events);
      assert all[..|all| - 1] == UnthoughtAll(before);
      if e.Messages? && !e.message.Other? { UnthoughtSplits(e.message); }
    }
  }

  /** A last reply that can be shown is the last reply without the thoughts too. */
  lemma {:induction false} LastReplyUnthought(events: seq<GraphEvent>)
    ensures var last := LastReply(events);
            var clean := last.Reply? && last.data.Raw? ==> forall b | b in last.data.blocks :: !IsReasoning(b);
            && (clean ==> LastReply(UnthoughtAll(events)) == last)
            && (!clean ==> LastReply(UnthoughtAll(events)) != last)
    decreases |events|
  {
    if events != [] {
      var before, e := events[..|events| - 1], events[|events| - 1];
      var all := UnthoughtAll(events);
      assert all[..|all| - 1] == UnthoughtAll(before);
      LastReplyUnthought(before);
      ReplyUnthought(e);
      if IsReply(e) && !IsReply(UnthoughtEvent(e)) {
        RepliesHoldNoThoughts(before);
      }
    }
  }

  /** One whole reply, with and without its thoughts. */
  lemma ReplyUnthought(e: GraphEvent)
    ensures IsReply(UnthoughtEvent(e)) ==> IsReply(e)
    ensures IsReply(e) && AnswerOf(e.message) != ""
        ==> IsReply(UnthoughtEvent(e)) && ReplyData(UnthoughtEvent(e).message) == ReplyData(e.message)
    ensures IsReply(e) && AnswerOf(e.message) == "" && (forall b | b in e.message.content.blocks :: !IsReasoning(b))
        ==> UnthoughtEvent(e).message.content == e.message.content && IsReply(UnthoughtEvent(e))
    ensures IsReply(e) && IsReply(UnthoughtEvent(e)) && AnswerOf(e.message) == ""
        && !(forall b | b in e.message.content.blocks :: !IsReasoning(b))
        ==> ReplyData(UnthoughtEvent(e).message) != ReplyData(e.message)
  {
    if e.Messages? && e.message.Whole? {
      UnthoughtSplits(e.message);
      if e.message.content.Blocks? { ThoughtlessStaysWhole(e.message.content.blocks); }
    }
  }

  lemma {:induction false} RepliesHoldNoThoughts(events: seq<GraphEvent>)
    ensures var last := LastReply(UnthoughtAll(events));
            last.Reply? && last.data.Raw? ==> forall b | b in last.data.blocks :: !IsReasoning(b)
    decreases |events|
  {
    if events != [] {
      var before, e := events[..|events| - 1], events[|events| - 1];
      var all := UnthoughtAll(events);
      assert all[..|all| - 1] == UnthoughtAll(before);
      RepliesHoldNoThoughts(before);
      if e.Messages? && e.message.Whole? && e.message.content.Blocks? { NoThoughtsLeft(e.message.content.blocks); }
    }
  }

  lemma {:induction false} NoThoughtsLeft(blocks: seq<Block>)
    ensures forall b | b in WithoutThoughts(blocks) :: !IsReasoning(b)
    decreases |blocks|
  {
    if blocks != [] { NoThoughtsLeft(blocks[..|blocks| - 1]); }
  }

  /** What a model thinks has no influence on the content a client gets, but for that leak. */
  lemma ContentIgnoresReasoningIff(events: seq<GraphEvent>)
    ensures Contents(Transcript(UnthoughtAll(events))) == Contents(Transcript(events)) <==> !Leaks(events)
  {
    ContentIsTheAnswer(events);
    ContentIsTheAnswer(UnthoughtAll(events));
    ChunkAnswersUnthought(events);
    LastReplyUnthought(events);
  }

  /** In particular when every whole reply of a visible node carries some answer text. */
  lemma AnsweredRepliesNeverLeak(events: seq<GraphEvent>)
    requires forall i | 0 <= i < |events| && IsReply(events[i]) :: AnswerOf(events[i].message) != ""
    ensures !Leaks(events)
    ensures Contents(Transcript(UnthoughtAll(events))) == Contents(Transcript(events))
  {
    LastReplyIsOne(events);
    ContentIgnoresReasoningIff(events);
  }

  lemma {:induction false} LastReplyIsOne(events: seq<GraphEvent>)
    ensures LastReply(events).Reply?
        ==> exists i :: 0 <= i < |events| && IsReply(events[i]) && ReplyData(events[i].message) == LastReply(events).data
    decreases |events|
  {
    if events != [] && !IsReply(events[|events| - 1]) {
      var before := events[..|events| - 1];
      LastReplyIsOne(before);
      if LastReply(before).Reply? {
        var i :| 0 <= i < |before| && IsReply(before[i]) && ReplyData(before[i].message) == LastReply(before).data;
        assert events[i] == before[i];
      }
    }
  }
}
