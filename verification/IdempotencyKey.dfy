/** Where a tool call's idempotency key comes from, up to the final hash. */
module IdempotencyKey {
  import opened JsonText
  import opened CanonicalJson
  import opened Options
  import CanonicalJsonLaws

  const BAR: Code := 0x7c
  const SEPARATOR: Code := 0x1f
  const TOOL_WORD: Text := [0x74, 0x6f, 0x6f, 0x6c]

  datatype Caller = Caller(tenant: Text, agent: Text, session: Text)

  datatype Call = Call(
    caller: Caller, namespace: Text, step: Option<int>, callId: Option<Text>, tool: Text, args: Json)

  // ---- Splitting and joining -------------------------------------------------------------------

  function SplitOn(t: Text, sep: Code): (parts: seq<Text>)
    ensures parts != []
  {
    if t == [] then [[]]
    else if t[0] == sep then [[]] + SplitOn(t[1..], sep)
    else var parts := SplitOn(t[1..], sep); [[t[0]] + parts[0]] + parts[1..]
  }

  function JoinWith(parts: seq<Text>, sep: Code): Text {
    if parts == [] then []
    else if |parts| == 1 then parts[0]
    else parts[0] + ([sep] + JoinWith(parts[1..], sep))
  }

  /** The text up to the first `mark`. */
  function Before(t: Text, mark: Code): Text {
    if t == [] || t[0] == mark then [] else [t[0]] + Before(t[1..], mark)
  }

  ghost predicate Avoids(parts: seq<Text>, mark: Code) {
    forall i | 0 <= i < |parts| :: mark !in parts[i]
  }

  lemma {:induction false} SplitFront(a: Text, rest: Text, sep: Code)
    requires sep !in a
    ensures SplitOn(a, sep) == [a]
    ensures SplitOn(a + ([sep] + rest), sep) == [a] + SplitOn(rest, sep)
  {
    var t := a + ([sep] + rest);
    if a == [] {
      assert t == [sep] + rest && t[1..] == rest;
    } else {
      SplitFront(a[1..], rest, sep);
      assert t[1..] == a[1..] + ([sep] + rest);
      assert [a[0]] + a[1..] == a;
    }
  }

  /** Splitting undoes joining. */
  lemma {:induction false} SplitJoin(parts: seq<Text>, sep: Code)
    requires parts != [] && Avoids(parts, sep)
    ensures SplitOn(JoinWith(parts, sep), sep) == parts
  {
    if |parts| == 1 {
      SplitFront(parts[0], [], sep);
    } else {
      SplitJoin(parts[1..], sep);
      SplitFront(parts[0], JoinWith(parts[1..], sep), sep);
    }
  }

  lemma PairJoins(x: Text, y: Text, sep: Code)
    ensures JoinWith([x, y], sep) == x + ([sep] + y)
  {
    assert [x, y][1..] == [y];
  }

  /** Joined lists agree exactly when they are one list, once no part holds the separator. */
  lemma JoinsAgreeIff(a: seq<Text>, b: seq<Text>, sep: Code)
    requires a != [] && b != [] && Avoids(a, sep) && Avoids(b, sep)
    ensures JoinWith(a, sep) == JoinWith(b, sep) <==> a == b
  {
    SplitJoin(a, sep);
    SplitJoin(b, sep);
  }

  function Count(t: Text, c: Code): nat {
    if t == [] then 0 else (if t[0] == c then 1 else 0) + Count(t[1..], c)
  }

  lemma {:induction false} SplitCounts(t: Text, sep: Code)
    ensures |SplitOn(t, sep)| == 1 + Count(t, sep)
  {
    if t != [] { SplitCounts(t[1..], sep); }
  }

  lemma {:induction false} CountAppend(a: Text, b: Text, c: Code)
    ensures Count(a + b, c) == Count(a, c) + Count(b, c)
    ensures c in a <==> Count(a, c) > 0
  {
    if a == [] {
      assert a + b == b;
    } else {
      CountAppend(a[1..], b, c);
      assert (a + b)[1..] == a[1..] + b;
    }
  }

  lemma CountJoined(a: Text, b: Text)
    ensures Count(a + ([SLASH] + b), SLASH) == Count(a, SLASH) + 1 + Count(b, SLASH)
    ensures (SLASH in a <==> Count(a, SLASH) > 0) && (SLASH in b <==> Count(b, SLASH) > 0)
  {
    CountAppend(a, [SLASH] + b, SLASH);
    CountAppend(b, [], SLASH);
    assert ([SLASH] + b)[1..] == b;
  }

  lemma {:induction false} SplitAvoids(t: Text, sep: Code, mark: Code)
    ensures Avoids(SplitOn(t, sep), sep)
    ensures mark !in t ==> Avoids(SplitOn(t, sep), mark)
  {
    if t != [] { SplitAvoids(t[1..], sep, mark); }
  }

  lemma {:induction false} BeforeAvoids(t: Text, mark: Code, other: Code)
    ensures mark !in Before(t, mark)
    ensures other !in t ==> other !in Before(t, mark)
  {
    if t != [] && t[0] != mark { BeforeAvoids(t[1..], mark, other); }
  }

  lemma {:induction false} BeforeFront(a: Text, rest: Text, mark: Code)
    requires mark !in a
    ensures Before(a + ([mark] + rest), mark) == a
  {
    var t := a + ([mark] + rest);
    if a != [] {
      BeforeFront(a[1..], rest, mark);
      assert t[1..] == a[1..] + ([mark] + rest);
    }
  }

  /** A first field without the separator is told from what follows. */
  lemma FirstFieldsAgree(a: Text, x: Text, b: Text, y: Text, sep: Code)
    requires sep !in a && sep !in b && a + ([sep] + x) == b + ([sep] + y)
    ensures a == b && x == y
  {
    BeforeFront(a, x, sep);
    BeforeFront(b, y, sep);
    assert (a + ([sep] + x))[|a| + 1..] == x;
    assert (b + ([sep] + y))[|b| + 1..] == y;
  }

  // ---- The conversation ------------------------------------------------------------------------

  function ConversationKey(c: Caller): Text {
    c.tenant + ([SLASH] + (c.agent + ([SLASH] + c.session)))
  }

  function Fields(c: Caller): seq<Text> { [c.tenant, c.agent, c.session] }

  lemma ConversationJoins(c: Caller)
    ensures ConversationKey(c) == JoinWith(Fields(c), SLASH)
  {
    PairJoins(c.agent, c.session, SLASH);
    assert Fields(c)[1..] == [c.agent, c.session];
  }

  /** Callers whose tenant and agent hold no slash share a conversation only if they are one. */
  lemma ConversationsAgreeIff(c: Caller, d: Caller)
    requires SLASH !in c.tenant && SLASH !in c.agent && SLASH !in d.tenant && SLASH !in d.agent
    ensures ConversationKey(c) == ConversationKey(d) <==> c == d
  {
    if ConversationKey(c) == ConversationKey(d) {
      FirstFieldsAgree(c.tenant, c.agent + ([SLASH] + c.session), d.tenant, d.agent + ([SLASH] + d.session), SLASH);
      FirstFieldsAgree(c.agent, c.session, d.agent, d.session, SLASH);
    }
  }

  /** No other caller at all files under the conversation of `c`. */
  ghost predicate Unmistakable(c: Caller) {
    forall d: Caller :: ConversationKey(d) == ConversationKey(c) ==> d == c
  }

  /** That holds exactly when none of its three ids holds a slash. */
  lemma UnmistakableIffNoSlash(c: Caller)
    ensures Unmistakable(c) <==> Avoids(Fields(c), SLASH)
  {
    if Avoids(Fields(c), SLASH) {
      forall d: Caller | ConversationKey(d) == ConversationKey(c) ensures d == c {
        ThreeFields(c, d);
      }
    } else {
      var d := Mistaken(c);
    }
  }

  /** Somebody of another tenant files under the conversation of a caller with a slash in an id. */
  lemma Mistaken(c: Caller) returns (d: Caller)
    requires !Avoids(Fields(c), SLASH)
    ensures d.tenant != c.tenant && ConversationKey(d) == ConversationKey(c)
  {
    if SLASH in c.tenant {
      var x, y := CutAtSlash(c.tenant);
      SlashMoves(x, y, c.agent, c.session);
      d := Caller(x, y + ([SLASH] + c.agent), c.session);
    } else if SLASH in c.agent {
      var x, y := CutAtSlash(c.agent);
      SlashMoves(c.tenant, x, y, c.session);
      d := Caller(c.tenant + ([SLASH] + x), y, c.session);
      assert |d.tenant| > |c.tenant|;
    } else {
      assert Fields(c)[0] == c.tenant && Fields(c)[1] == c.agent && Fields(c)[2] == c.session;
      var x, y := CutAtSlash(c.session);
      SlashMoves(c.tenant, c.agent, x, y);
      d := Caller(c.tenant + ([SLASH] + c.agent), x, y);
      assert |d.tenant| > |c.tenant|;
    }
  }

  lemma CutAtSlash(t: Text) returns (x: Text, y: Text)
    requires SLASH in t
    ensures t == x + ([SLASH] + y) && |x| < |t| && |y| < |t|
  {
    var i :| 0 <= i < |t| && t[i] == SLASH;
    x, y := t[..i], t[i + 1..];
  }

  /** A slash may belong to any of the ids around it: four fields make three callers, one key. */
  lemma SlashMoves(p: Text, q: Text, r: Text, s: Text)
    ensures ConversationKey(Caller(p + ([SLASH] + q), r, s))
         == ConversationKey(Caller(p, q + ([SLASH] + r), s))
         == ConversationKey(Caller(p, q, r + ([SLASH] + s)))
  {
    var tail := r + ([SLASH] + s);
    assert (p + ([SLASH] + q)) + ([SLASH] + tail) == p + ([SLASH] + (q + ([SLASH] + tail)));
    assert (q + ([SLASH] + r)) + ([SLASH] + s) == q + ([SLASH] + tail);
  }

  lemma ThreeFields(c: Caller, d: Caller)
    requires Avoids(Fields(c), SLASH) && ConversationKey(d) == ConversationKey(c)
    ensures d == c
  {
    var key := ConversationKey(c);
    ConversationJoins(c);
    SplitJoin(Fields(c), SLASH);
    SplitCounts(key, SLASH);
    CountJoined(d.tenant, d.agent + ([SLASH] + d.session));
    CountJoined(d.agent, d.session);
    ConversationJoins(d);
    JoinsAgreeIff(Fields(c), Fields(d), SLASH);
    assert Fields(c)[0] == Fields(d)[0] && Fields(c)[1] == Fields(d)[1] && Fields(c)[2] == Fields(d)[2];
  }

  // ---- The call site ---------------------------------------------------------------------------

  /** The node names of a checkpoint namespace, its per-task ids dropped. */
  function NodeNames(segments: seq<Text>): seq<Text> {
    if segments == [] then []
    else (if segments[0] == [] then [] else [Before(segments[0], COLON)]) + NodeNames(segments[1..])
  }

  function Names(namespace: Text): seq<Text> {
    NodeNames(SplitOn(namespace, BAR))
  }

  /** Each segment counts by itself: an empty one not at all, any other as its text up to the first
      colon, which is all of it where there is none. */
  lemma {:induction false} SegmentsStandAlone(a: seq<Text>, b: seq<Text>, segment: Text)
    ensures NodeNames(a + b) == NodeNames(a) + NodeNames(b)
    ensures NodeNames([[]]) == []
    ensures segment != [] && COLON !in segment ==> NodeNames([segment]) == [segment]
    ensures forall name, id | COLON !in name && segment == name + ([COLON] + id) :: NodeNames([segment]) == [name]
  {
    var empty: seq<Text> := [[]];
    assert [segment][1..] == [] && empty[1..] == [];
    if COLON !in segment { BeforeWhole(segment, COLON); }
    forall name, id | COLON !in name && segment == name + ([COLON] + id) ensures NodeNames([segment]) == [name] {
      BeforeFront(name, id, COLON);
    }
    if a == [] {
      assert a + b == b;
    } else {
      assert (a + b)[1..] == a[1..] + b && (a + b)[0] == a[0];
      SegmentsStandAlone(a[1..], b, segment);
      var head := if a[0] == [] then [] else [Before(a[0], COLON)];
      assert NodeNames(a) == head + NodeNames(a[1..]);
    }
  }

  lemma {:induction false} BeforeWhole(t: Text, mark: Code)
    requires mark !in t
    ensures Before(t, mark) == t
  {
    if t != [] { BeforeWhole(t[1..], mark); }
  }

  function StepText(step: Option<int>): Text {
    match step case None => [] case Some(n) => Integer(n)
  }

  function OrEmpty(callId: Option<Text>): Text {
    match callId case None => [] case Some(id) => id
  }

  function CallSite(namespace: Text, step: Option<int>, callId: Option<Text>): Text {
    var path := JoinWith(Names(namespace), BAR);
    TOOL_WORD + ([BAR] + (path + ([BAR] + (StepText(step) + ([BAR] + OrEmpty(callId))))))
  }

  lemma {:induction false} NodeNamesAvoid(segments: seq<Text>, mark: Code)
    ensures Avoids(NodeNames(segments), COLON)
    ensures Avoids(segments, mark) ==> Avoids(NodeNames(segments), mark)
  {
    if segments != [] {
      NodeNamesAvoid(segments[1..], mark);
      BeforeAvoids(segments[0], COLON, mark);
      assert Avoids(segments, mark) ==> Avoids(segments[1..], mark);
    }
  }

  lemma NamesAvoidDelimiters(namespace: Text)
    ensures Avoids(Names(namespace), BAR) && Avoids(Names(namespace), COLON)
  {
    SplitAvoids(namespace, BAR, BAR);
    NodeNamesAvoid(SplitOn(namespace, BAR), BAR);
  }

  /** The parts of a call site; a path of no node at all leaves one empty part. */
  function SiteParts(names: seq<Text>, step: Option<int>, id: Text): seq<Text> {
    [TOOL_WORD] + (if names == [] then [[]] else names) + [StepText(step), id]
  }

  lemma {:induction false} JoinMore(parts: seq<Text>, x: Text, y: Text, sep: Code)
    requires parts != []
    ensures JoinWith(parts + [x, y], sep) == JoinWith(parts, sep) + ([sep] + (x + ([sep] + y)))
  {
    var more := parts + [x, y];
    if |parts| == 1 {
      PairJoins(x, y, sep);
      assert more[1..] == [x, y];
    } else {
      JoinMore(parts[1..], x, y, sep);
      assert more[1..] == parts[1..] + [x, y];
      var tail := [sep] + (x + ([sep] + y));
      assert parts[0] + ([sep] + (JoinWith(parts[1..], sep) + tail))
          == (parts[0] + ([sep] + JoinWith(parts[1..], sep))) + tail;
    }
  }

  lemma SiteJoins(namespace: Text, step: Option<int>, callId: Option<Text>)
    ensures CallSite(namespace, step, callId) == JoinWith(SiteParts(Names(namespace), step, OrEmpty(callId)), BAR)
  {
    var names := Names(namespace);
    var path := if names == [] then [[]] else names;
    JoinMore([TOOL_WORD] + path, StepText(step), OrEmpty(callId), BAR);
    assert ([TOOL_WORD] + path)[1..] == path;
    assert JoinWith(path, BAR) == JoinWith(names, BAR);
    var tail := [BAR] + (StepText(step) + ([BAR] + OrEmpty(callId)));
    assert (TOOL_WORD + ([BAR] + JoinWith(path, BAR))) + tail == TOOL_WORD + ([BAR] + (JoinWith(path, BAR) + tail));
  }

  lemma StepTextAvoids(step: Option<int>)
    ensures BAR !in StepText(step) && SEPARATOR !in StepText(step)
  {
    if step.Some? && step.value < 0 {
      assert StepText(step) == [MINUS] + Decimal(-step.value);
    }
  }

  lemma StepsDiffer(a: Option<int>, b: Option<int>)
    ensures StepText(a) == StepText(b) <==> a == b
  {
    if a.Some? && b.Some? { IntegersDiffer(a.value, b.value); }
  }

  lemma SitePartsAvoid(namespace: Text, step: Option<int>, id: Text)
    requires BAR !in id
    ensures Avoids(SiteParts(Names(namespace), step, id), BAR)
  {
    NamesAvoidDelimiters(namespace);
    StepTextAvoids(step);
  }

  /** Call sites tell node path, step and call id apart, but for a lone nameless node, which looks
      like no node at all. */
  lemma CallSitesAgreeIff(ns: Text, step: Option<int>, id: Option<Text>, ns': Text, step': Option<int>, id': Option<Text>)
    requires BAR !in OrEmpty(id) && BAR !in OrEmpty(id')
    ensures CallSite(ns, step, id) == CallSite(ns', step', id')
       <==> && (Names(ns) == Names(ns') || {Names(ns), Names(ns')} == {[], [[]]})
            && step == step' && OrEmpty(id) == OrEmpty(id')
  {
    var a, b := SiteParts(Names(ns), step, OrEmpty(id)), SiteParts(Names(ns'), step', OrEmpty(id'));
    SiteJoins(ns, step, id);
    SiteJoins(ns', step', id');
    SitePartsAvoid(ns, step, OrEmpty(id));
    SitePartsAvoid(ns', step', OrEmpty(id'));
    JoinsAgreeIff(a, b, BAR);
    StepsDiffer(step, step');
    PartsDecide(Names(ns), step, OrEmpty(id), Names(ns'), step', OrEmpty(id'));
  }

  lemma PartsDecide(names: seq<Text>, step: Option<int>, id: Text, names': seq<Text>, step': Option<int>, id': Text)
    ensures SiteParts(names, step, id) == SiteParts(names', step', id')
       <==> && (names == names' || {names, names'} == {[], [[]]})
            && StepText(step) == StepText(step') && id == id'
  {
    var path, path' := if names == [] then [[]] else names, if names' == [] then [[]] else names';
    var a, b := SiteParts(names, step, id), SiteParts(names', step', id');
    if a == b {
      assert |path| == |path'|;
      assert a[1..|path| + 1] == path && b[1..|path| + 1] == path';
      assert a[|path| + 1] == StepText(step) && a[|path| + 2] == id;
      assert b[|path| + 1] == StepText(step') && b[|path| + 2] == id';
    }
    if {names, names'} == {[], [[]]} {
      assert names in {[], [[]]} && names' in {[], [[]]};
      assert path == path';
    }
    if path == path' && names != names' {
      assert {names, names'} == {[], [[]]};
    }
  }

  // ---- Resume: the same call, other task ids -----------------------------------------------------

  datatype Task = Task(node: Text, id: Text)

  function Segments(tasks: seq<Task>): (segments: seq<Text>)
    ensures |segments| == |tasks|
    ensures forall i | 0 <= i < |tasks| :: segments[i] == tasks[i].node + ([COLON] + tasks[i].id)
  {
    seq(|tasks|, i requires 0 <= i < |tasks| => tasks[i].node + ([COLON] + tasks[i].id))
  }

  /** The namespace of nested tasks, outermost first. */
  function Namespace(tasks: seq<Task>): Text {
    JoinWith(Segments(tasks), BAR)
  }

  function Nodes(tasks: seq<Task>): (nodes: seq<Text>)
    ensures |nodes| == |tasks|
    ensures forall i | 0 <= i < |tasks| :: nodes[i] == tasks[i].node
  {
    seq(|tasks|, i requires 0 <= i < |tasks| => tasks[i].node)
  }

  ghost predicate Proper(tasks: seq<Task>) {
    forall i | 0 <= i < |tasks| :: BAR !in tasks[i].node && COLON !in tasks[i].node && BAR !in tasks[i].id
  }

  lemma {:induction false} NodeNamesOfSegments(tasks: seq<Task>)
    requires Proper(tasks)
    ensures NodeNames(Segments(tasks)) == Nodes(tasks)
    decreases |tasks|
  {
    if tasks != [] {
      NodeNamesOfSegments(tasks[1..]);
      BeforeFront(tasks[0].node, tasks[0].id, COLON);
      assert Segments(tasks)[1..] == Segments(tasks[1..]);
      assert Nodes(tasks) == [tasks[0].node] + Nodes(tasks[1..]);
    }
  }

  /** A namespace gives back the node names it was built from, whatever task ids it carries. */
  lemma NamesOfNamespace(tasks: seq<Task>)
    requires Proper(tasks)
    ensures Names(Namespace(tasks)) == Nodes(tasks)
  {
    if tasks == [] {
      assert SplitOn([], BAR) == [[]];
      assert NodeNames([[]]) == [] + NodeNames([[]][1..]) == [];
      assert Nodes(tasks) == [];
    } else {
      SplitJoin(Segments(tasks), BAR);
      NodeNamesOfSegments(tasks);
    }
  }

  // ---- The key -----------------------------------------------------------------------------------

  function PayloadParts(call: Call): seq<Text> {
    [ConversationKey(call.caller), CallSite(call.namespace, call.step, call.callId), call.tool, Print(call.args)]
  }

  /** The text that is hashed into the key. */
  function Payload(call: Call): Text {
    JoinWith(PayloadParts(call), SEPARATOR)
  }

  /** The ids keep clear of the delimiters around them; names cannot hold `|` or `:` to begin with. */
  ghost predicate Clean(call: Call) {
    && (SLASH !in call.caller.tenant && SLASH !in call.caller.agent)
    && Avoids(Fields(call.caller), SEPARATOR)
    && Avoids(Names(call.namespace), SEPARATOR) && [] !in Names(call.namespace)
    && BAR !in OrEmpty(call.callId) && SEPARATOR !in OrEmpty(call.callId)
    && SEPARATOR !in call.tool
    && Valid(call.args) && CanonicalJsonLaws.Unsplit(call.args)
  }

  ghost predicate SameCall(c: Call, d: Call) {
    && c.caller == d.caller && c.tool == d.tool && Denote(c.args) == Denote(d.args)
    && Names(c.namespace) == Names(d.namespace) && c.step == d.step && OrEmpty(c.callId) == OrEmpty(d.callId)
  }

  lemma {:induction false} JoinAvoids(parts: seq<Text>, sep: Code, mark: Code)
    requires Avoids(parts, mark) && sep != mark
    ensures mark !in JoinWith(parts, sep)
  {
    if |parts| > 1 { JoinAvoids(parts[1..], sep, mark); }
  }

  lemma ConversationAvoids(c: Caller)
    requires Avoids(Fields(c), SEPARATOR)
    ensures SEPARATOR !in ConversationKey(c)
  {
    ConversationJoins(c);
    JoinAvoids(Fields(c), SLASH, SEPARATOR);
  }

  lemma SiteAvoids(namespace: Text, step: Option<int>, callId: Option<Text>)
    requires Avoids(Names(namespace), SEPARATOR) && SEPARATOR !in OrEmpty(callId)
    ensures SEPARATOR !in CallSite(namespace, step, callId)
  {
    SiteJoins(namespace, step, callId);
    StepTextAvoids(step);
    JoinAvoids(SiteParts(Names(namespace), step, OrEmpty(callId)), BAR, SEPARATOR);
  }

  lemma PartsAvoidSeparator(call: Call)
    requires Clean(call)
    ensures Avoids(PayloadParts(call), SEPARATOR)
  {
    ConversationAvoids(call.caller);
    SiteAvoids(call.namespace, call.step, call.callId);
    CanonicalJsonLaws.PrintIsPrintable(call.args);
  }

  /** The payload field by field: cut at the unit separator, a key's text is the conversation, the call
      site, the tool and the printed arguments; cut at bars, the call site is the word `tool`, the node
      names, the step and the call id; cut at slashes, the conversation is tenant, agent and session. */
  lemma PayloadFields(call: Call)
    requires Clean(call)
    ensures SplitOn(Payload(call), 0x1f)
         == [ConversationKey(call.caller), CallSite(call.namespace, call.step, call.callId), call.tool, Print(call.args)]
    ensures SplitOn(CallSite(call.namespace, call.step, call.callId), 0x7c)
         == [[0x74, 0x6f, 0x6f, 0x6c]] + (if Names(call.namespace) == [] then [[]] else Names(call.namespace))
            + [if call.step.Some? then Integer(call.step.value) else [],
               if call.callId.Some? then call.callId.value else []]
    ensures SLASH !in call.caller.session ==>
              SplitOn(ConversationKey(call.caller), 0x2f) == [call.caller.tenant, call.caller.agent, call.caller.session]
  {
    PartsAvoidSeparator(call);
    SplitJoin(PayloadParts(call), SEPARATOR);
    SiteJoins(call.namespace, call.step, call.callId);
    SitePartsAvoid(call.namespace, call.step, OrEmpty(call.callId));
    SplitJoin(SiteParts(Names(call.namespace), call.step, OrEmpty(call.callId)), BAR);
    if SLASH !in call.caller.session {
      ConversationJoins(call.caller);
      SplitJoin(Fields(call.caller), SLASH);
    }
  }

  /** The payload is a name for the call: two calls share it exactly when they are one call. */
  lemma PayloadsAgreeIff(c: Call, d: Call)
    requires Clean(c) && Clean(d)
    ensures Payload(c) == Payload(d) <==> SameCall(c, d)
  {
    PartsAvoidSeparator(c);
    PartsAvoidSeparator(d);
    var a, b := PayloadParts(c), PayloadParts(d);
    JoinsAgreeIff(a, b, SEPARATOR);
    assert a == b <==> a[0] == b[0] && a[1] == b[1] && a[2] == b[2] && a[3] == b[3];
    ConversationsAgreeIff(c.caller, d.caller);
    CallSitesAgreeIff(c.namespace, c.step, c.callId, d.namespace, d.step, d.callId);
    CanonicalJsonLaws.PrintsAgreeIffMeaningsDo(c.args, d.args);
    var nameless: seq<Text> := [[]];
    assert [] in nameless;
  }

  /** A resumed call keeps its key: new task ids and a re-ordered argument dict change nothing. */
  lemma ResumeKeepsTheKey(call: Call, tasks: seq<Task>, again: seq<Task>, args: Json)
    requires Proper(tasks) && Proper(again) && Nodes(tasks) == Nodes(again)
    requires Valid(call.args) && Valid(args) && Denote(args) == Denote(call.args)
    ensures Payload(call.(namespace := Namespace(tasks)))
         == Payload(call.(namespace := Namespace(again), args := args))
  {
    NamesOfNamespace(tasks);
    NamesOfNamespace(again);
    CanonicalJsonLaws.PrintDependsOnTheMeaning(call.args, args);
  }

  /** The same call in a later turn runs at a later step, and gets a key of its own. */
  lemma NextTurnGetsItsOwnKey(call: Call, later: int)
    requires Clean(call) && call.step.Some? && later > call.step.value
    ensures Payload(call.(step := Some(later))) != Payload(call)
  {
    PayloadsAgreeIff(call.(step := Some(later)), call);
  }
}
