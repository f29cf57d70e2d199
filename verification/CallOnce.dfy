/** The write-ahead intent ledger and the guarded call, as one task runs them.

    A side effect is identified by a key.  `Guard.CallOnce` looks the key up, declares the intent
    before firing, and settles it afterwards; `WriteAhead` interleaves the same steps between many
    workers and lets them crash between any two. */
module CallOnce {
  import opened JsonText

  /** The pre-hash identity of one tool call: the conversation it belongs to and its place there. */
  datatype Key = Key(thread: Text, site: Text)

  /** What an effect hands back.  `Opaque` is a value JSON cannot carry, known only by its `str`. */
  datatype Value = Plain(text: string) | Opaque(repr: string)

  /** What a call of arbitrary code comes to. */
  datatype Outcome = Returned(value: Value) | Raised(message: string)

  datatype Entry = Pending | Done(result: Value)

  type Entries = map<Key, Entry>

  /** The text a value shows. */
  function Shown(v: Value): string {
    match v case Plain(text) => text case Opaque(repr) => repr
  }

  /** What the store keeps of a result: the database column holds JSON, so an opaque value survives
      as its text; the in-memory ledger keeps the value itself. */
  function Stored(durable: bool, v: Value): (r: Value)
    ensures Shown(r) == Shown(v)
    ensures v.Plain? || !durable ==> r == v
    ensures durable ==> r.Plain?
  {
    if durable && v.Opaque? then Plain(v.repr) else v
  }

  /** One whole guarded call: the ledger afterwards, how often the effect fired and was verified,
      and what the caller gets. */
  datatype Effects = Effects(entries: Entries, fired: nat, verified: nat, outcome: Outcome)

  function Guarded(durable: bool, entries: Entries, key: Key,
                   onCall: Outcome, onVerify: Outcome, idempotent: bool): Effects
  {
    if key in entries then
      match entries[key]
      case Done(result) => Effects(entries, 0, 0, Returned(result))
      case Pending => Effects(Settle(durable, entries, key, onVerify), 0, 1, onVerify)
    else
      var declared := if idempotent then entries else entries[key := Pending];
      Effects(Settle(durable, declared, key, onCall), 1, 0, onCall)
  }

  function Settle(durable: bool, entries: Entries, key: Key, o: Outcome): Entries {
    if o.Returned? then entries[key := Done(Stored(durable, o.value))] else entries
  }

  /** The ledger: in memory, or a table whose rows outlive the process. */
  class Ledger {
    const durable: bool
    var entries: Entries

    constructor (durable: bool, entries: Entries)
      ensures this.durable == durable && this.entries == entries
    {
      this.durable := durable;
      this.entries := entries;
    }

    method Lookup(key: Key) returns (found: bool, entry: Entry)
      ensures found <==> key in entries
      ensures found ==> entry == entries[key]
    {
      found, entry := key in entries, Pending;
      if found { entry := entries[key]; }
    }

    method Record(key: Key, entry: Entry)
      modifies this`entries
      ensures entries == old(entries)[key := if entry.Done? then Done(Stored(durable, entry.result)) else Pending]
    {
      match entry {
        case Pending => entries := entries[key := Pending];
        case Done(result) => entries := entries[key := Done(Stored(durable, result))];
      }
    }
  }

  /** The `fn` of a guarded call: arbitrary code with an effect and a way to ask whether it landed.
      `seen` records what the ledger held at each firing. */
  class Effect {
    const onCall: Outcome
    const onVerify: Outcome
    var verified: nat
    ghost var seen: seq<Entries>

    constructor (onCall: Outcome, onVerify: Outcome)
      ensures this.onCall == onCall && this.onVerify == onVerify
      ensures seen == [] && verified == 0
    {
      this.onCall, this.onVerify := onCall, onVerify;
      this.verified := 0;
      this.seen := [];
    }

    method Call(ghost entries: Entries) returns (o: Outcome)
      modifies this
      ensures o == onCall && verified == old(verified) && seen == old(seen) + [entries]
    {
      seen := seen + [entries];
      o := onCall;
    }

    method Verify() returns (o: Outcome)
      modifies this
      ensures o == onVerify && verified == old(verified) + 1 && seen == old(seen)
    {
      verified := verified + 1;
      o := onVerify;
    }
  }

  class Guard {
    /** The guarded call itself.  Said case by case: a settled row answers by itself, a pending one is
        verified and never fired again, an unseen key is fired once; no other row is touched.  And a
        firing of a write finds its own intent already recorded. */
    static method CallOnce(ledger: Ledger, key: Key, fn: Effect, idempotent: bool)
      returns (o: Outcome)
      modifies ledger, fn
      ensures var g := Guarded(ledger.durable, old(ledger.entries), key, fn.onCall, fn.onVerify, idempotent);
              && ledger.entries == g.entries && o == g.outcome
              && |fn.seen| == |old(fn.seen)| + g.fired && fn.verified == old(fn.verified) + g.verified
      ensures old(fn.seen) <= fn.seen
      ensures forall i | |old(fn.seen)| <= i < |fn.seen| && !idempotent ::
                key in fn.seen[i] && fn.seen[i][key] == Pending
      ensures var rows := old(ledger.entries);
              key in rows && rows[key].Done? ==>
                && o == Returned(rows[key].result) && ledger.entries == rows
                && fn.seen == old(fn.seen) && fn.verified == old(fn.verified)
      ensures var rows := old(ledger.entries);
              key in rows && rows[key].Pending? ==>
                && o == fn.onVerify && fn.seen == old(fn.seen) && fn.verified == old(fn.verified) + 1
                && (o.Raised? ==> ledger.entries == rows)
      ensures var rows := old(ledger.entries);
              key !in rows ==>
                && o == fn.onCall && |fn.seen| == |old(fn.seen)| + 1 && fn.verified == old(fn.verified)
                && (o.Raised? ==> ledger.entries == if idempotent then rows else rows[key := Pending])
      ensures o.Returned? ==>
                && key in ledger.entries && ledger.entries[key].Done?
                && Shown(ledger.entries[key].result) == Shown(o.value)
                && (!ledger.durable && !(key in old(ledger.entries) && old(ledger.entries[key]).Done?) ==>
                      ledger.entries[key].result == o.value)
      ensures ledger.entries - {key} == old(ledger.entries) - {key}
    {
      var found, existing := ledger.Lookup(key);
      if found {
        match existing {
          case Done(result) =>
            return Returned(result);
          case Pending =>
            o := fn.Verify();
            if o.Returned? {
              ledger.Record(key, Done(o.value));
            }
            return;
        }
      }
      if !idempotent {
        ledger.Record(key, Pending);
      }
      o := fn.Call(ledger.entries);
      if o.Returned? {
        ledger.Record(key, Done(o.value));
      }
    }

    /** The tool wrapper around it: reads bypass the ledger, a write may first need a human's
        approval, and a failure becomes text for the model.  `approved` is what the pause returned. */
    static method RunTool(name: string, sideEffecting: bool, confirmWrites: bool, approved: bool,
                          ledger: Ledger, key: Key, fn: Effect)
      returns (reply: Value)
      modifies ledger, fn
      ensures !sideEffecting ==>
                && ledger.entries == old(ledger.entries) && |fn.seen| == |old(fn.seen)| + 1
                && reply == Reply(name, fn.onCall)
      ensures sideEffecting && confirmWrites && !approved ==>
                && ledger.entries == old(ledger.entries) && fn.seen == old(fn.seen)
                && fn.verified == old(fn.verified) && reply == Rejection(name)
      ensures sideEffecting && (confirmWrites ==> approved) ==>
                var g := Guarded(ledger.durable, old(ledger.entries), key, fn.onCall, fn.onVerify, false);
                && ledger.entries == g.entries && reply == Reply(name, g.outcome)
                && |fn.seen| == |old(fn.seen)| + g.fired && fn.verified == old(fn.verified) + g.verified
      ensures !sideEffecting ==> Tells(reply, name, fn.onCall)
      ensures sideEffecting && (confirmWrites ==> approved) ==>
                var rows := old(ledger.entries);
                if key !in rows then Tells(reply, name, fn.onCall)
                else if rows[key].Done? then reply == rows[key].result
                else Tells(reply, name, fn.onVerify)
    {
      if !sideEffecting {
        var o := fn.Call(ledger.entries);
        ReplyTells(name, o);
        return Reply(name, o);
      }
      if confirmWrites {
        if !approved {
          return Rejection(name);
        }
      }
      var o := CallOnce(ledger, key, fn, false);
      ReplyTells(name, o);
      return Reply(name, o);
    }
  }

  ghost predicate MentionsAt(text: string, part: string, i: nat) {
    i + |part| <= |text| && text[i..i + |part|] == part
  }

  ghost predicate Mentions(text: string, part: string) {
    exists i: nat :: MentionsAt(text, part, i)
  }

  lemma Mentioned(text: string, before: string, part: string, behind: string)
    requires text == before + (part + behind)
    ensures Mentions(text, part)
  {
    assert text[|before|..|before| + |part|] == part;
    assert MentionsAt(text, part, |before|);
  }

  const NOT_EXECUTED := "rejected by the human and was not executed"

  function Rejection(name: string): Value {
    Plain("the write to '" + (name + ("' was " + NOT_EXECUTED)))
  }

  /** A rejection names the tool and says what became of the write. */
  lemma RejectionTells(name: string)
    ensures var v := Rejection(name);
            v.Plain? && Mentions(v.text, name) && Mentions(v.text, "rejected by the human and was not executed")
  {
    var text := Rejection(name).text;
    Mentioned(text, "the write to '", name, "' was " + NOT_EXECUTED);
    assert text == ("the write to '" + name + "' was ") + (NOT_EXECUTED + "");
    Mentioned(text, "the write to '" + name + "' was ", NOT_EXECUTED, "");
  }

  /** A raise degrades to a message; a result passes through. */
  function Reply(name: string, o: Outcome): Value {
    match o
    case Returned(v) => v
    case Raised(message) => Plain("tool '" + name + "' failed: " + message)
  }

  /** What the model may conclude from a reply: a result is passed on as it is; a failure is a text
      that names the tool and says what was raised, and that nobody can take for a rejection. */
  ghost predicate Tells(reply: Value, name: string, o: Outcome) {
    match o
    case Returned(v) => reply == v
    case Raised(message) =>
      && reply.Plain? && Mentions(reply.text, name) && Mentions(reply.text, message)
      && forall tool: string :: reply != Rejection(tool)
  }

  lemma ReplyTells(name: string, o: Outcome)
    ensures Tells(Reply(name, o), name, o)
  {
    if o.Raised? {
      var text := Reply(name, o).text;
      var behind := "' failed: " + o.message;
      assert text == "tool '" + (name + behind);
      Mentioned(text, "tool '", name, behind);
      assert text == ("tool '" + name + "' failed: ") + (o.message + "");
      Mentioned(text, "tool '" + name + "' failed: ", o.message, "");
      forall tool: string ensures Plain(text) != Rejection(tool) {
        assert text[1] == 'o' && Rejection(tool).text[1] == 'h';
      }
    }
  }

  /** Firings made by guarded calls of one key run one after another; each call meets its own pair
      of outcomes. */
  function Firings(durable: bool, entries: Entries, key: Key, script: seq<(Outcome, Outcome)>, idempotent: bool): nat
    decreases |script|
  {
    if script == [] then 0 else
    var g := Guarded(durable, entries, key, script[0].0, script[0].1, idempotent);
    g.fired + Firings(durable, g.entries, key, script[1..], idempotent)
  }

  /** A write fires on its first call at most, and an idempotent effect only until it first
      returns. */
  lemma {:induction false} SequentialFirings(durable: bool, entries: Entries, key: Key,
                                             script: seq<(Outcome, Outcome)>, idempotent: bool)
    ensures key in entries ==> Firings(durable, entries, key, script, idempotent) == 0
    ensures key !in entries && !idempotent ==>
              Firings(durable, entries, key, script, false) == if script == [] then 0 else 1
    ensures key !in entries && idempotent ==>
              forall n | 0 <= n < |script| && script[n].0.Returned? && (forall i | 0 <= i < n :: script[i].0.Raised?) ::
                Firings(durable, entries, key, script, true) == n + 1
    decreases |script|
  {
    if script != [] {
      var g := Guarded(durable, entries, key, script[0].0, script[0].1, idempotent);
      SequentialFirings(durable, g.entries, key, script[1..], idempotent);
      forall n | 0 < n < |script| && script[n].0.Returned? && (forall i | 0 <= i < n :: script[i].0.Raised?)
        ensures script[1..][n - 1].0.Returned? && forall i | 0 <= i < n - 1 :: script[1..][i].0.Raised?
      {
      }
    }
  }
}
