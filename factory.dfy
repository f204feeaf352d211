/**
  The question registry (src/QFactory.js): questions keyed by their camel-cased name, in the
  order their keys were first set, as a JavaScript `Map` keeps them. The source holds one
  process-wide map in a static field; here it is an explicit `Registry` object.
 */
module Factory {
  import opened Common
  import opened Validators
  import opened Questions

  /** What a callback was invoked with. */
  datatype CallbackArg = OnQuestion(question: Question) | OnMessage(message: Message) | OnNull

  predicate NoDuplicates(ks: seq<string>) {
    forall i, j :: 0 <= i < j < |ks| ==> ks[i] != ks[j]
  }

  /** The key order after `Map.set(k, ...)`: a key already present keeps its place, a new one goes last. */
  function Upsert(ks: seq<string>, k: string): (r: seq<string>)
    ensures NoDuplicates(ks) ==> NoDuplicates(r)
    ensures forall x :: x in r <==> x in ks || x == k
    ensures |ks| <= |r| <= |ks| + 1
    ensures forall i :: 0 <= i < |ks| ==> r[i] == ks[i]
    ensures k in ks ==> r == ks
    ensures k !in ks ==> |r| == |ks| + 1 && r[|ks|] == k
  {
    if k in ks then ks else ks + [k]
  }

  /**
    How `_addQuestion` applies its optional `msg` and `cb` to a question with settings `s` and
    original name `subject`: the settings it is left with and the error thrown, if any.
   */
  function Overload(s: Settings, subject: string, msg: Option<Message>, cb: Option<Callback>): (r: (Settings, Option<Error>))
    // neither given: the question is registered as it is
    ensures msg.None? && cb.None? ==> r == (s, None)
    // only a string: it becomes the message
    ensures cb.None? && msg.Some? && msg.value.Text? ==> r == (s.(message := msg.value), None)
    // only a function: it is the callback, run on the question; no message is set
    ensures cb.None? && msg.Some? && msg.value.Handler? ==> r == RunSteps(s, subject, msg.value.callback)
    // only a callback: it receives the current message, not the question, which stays as it is
    ensures msg.None? && cb.Some? ==> r == (s, None)
    // both: the message is set first, then the callback runs on the question
    ensures msg.Some? && cb.Some? ==> r == RunSteps(s.(message := msg.value), subject, cb.value)
  {
    match (msg, cb)
    case (None, None) => (s, None)
    case (Some(Text(t)), None) => (s.(message := Text(t)), None)
    case (Some(Handler(f)), None) => RunSteps(s, subject, f)
    case (None, Some(_)) => (s, None)
    case (Some(m), Some(f)) => RunSteps(s.(message := m), subject, f)
  }

  /** A callback that makes no `message` call leaves the message as it found it. */
  lemma {:induction false} RunStepsKeepsMessage(s: Settings, subject: string, steps: Callback)
    requires forall i :: 0 <= i < |steps| ==> !steps[i].SetMessage?
    ensures RunSteps(s, subject, steps).0.message == s.message
    decreases |steps|
  {
    if steps != [] {
      match ApplyStep(s, subject, steps[0])
      case Failure(_) =>
      case Success(s') =>
        assert !steps[0].SetMessage?;
        assert forall i :: 0 <= i < |steps[1..]| ==> steps[1..][i] == steps[i + 1];
        RunStepsKeepsMessage(s', subject, steps[1..]);
    }
  }

  /** A message given as text survives registration unless the callback itself sets one. */
  lemma OverloadKeepsTextMessage(s: Settings, subject: string, text: string, cb: Option<Callback>)
    requires cb.Some? ==> forall i :: 0 <= i < |cb.value| ==> !cb.value[i].SetMessage?
    ensures Overload(s, subject, Some(Text(text)), cb).0.message == Text(text)
  {
    if cb.Some? {
      RunStepsKeepsMessage(s.(message := Text(text)), subject, cb.value);
    }
  }

  /**
    The four call shapes of `input(name, ...)` on a fresh question: no message; a message; a
    callback setting a default; a message and the `validateEmpty` callback.
   */
  lemma OverloadExamples(name: string)
    ensures Overload(Initial, name, None, None) == (Settings(Text(""), "", None), None)
    ensures Overload(Initial, name, Some(Text("Enter your name")), None)
      == (Settings(Text("Enter your name"), "", None), None)
    ensures Overload(Initial, name, Some(Handler([SetDefault("x")])), None)
      == (Settings(Text(""), "x", None), None)
    ensures Overload(Initial, name, Some(Text("Enter your name")), Some(ValidateEmptyCallback()))
      == (Settings(Text("Enter your name"), "", Some(NotEmpty(name))), None)
  {
    assert RunSteps(Settings(Text(""), "x", None), name, []) == (Settings(Text(""), "x", None), None);
  }

  /** The callback `QFactory.validateEmpty` hands out: `q => q.validateEmpty`. */
  function ValidateEmptyCallback(): (cb: Callback)
    ensures forall s, subject :: RunSteps(s, subject, cb) == (s.(validation := Some(NotEmpty(subject))), None)
  {
    [UseValidateEmpty]
  }

  /** The callback `QFactory.validateEmail` hands out: `q => q.validateEmail`. */
  function ValidateEmailCallback(): (cb: Callback)
    ensures forall s, subject :: RunSteps(s, subject, cb) == (s.(validation := Some(Email)), None)
  {
    [UseValidateEmail]
  }

  class Registry {
    const camelCase: string -> string          // the name normaliser questions are keyed by
    var keys: seq<string>                      // the map's keys, in insertion order
    var entries: map<string, Question>

    ghost predicate Valid()
      reads this
    {
      && NoDuplicates(keys)
      && (forall k :: k in entries <==> k in keys)
      && (forall k :: k in entries ==> entries[k].name == k)
    }

    constructor (camelCase: string -> string)
      ensures Valid() && this.camelCase == camelCase
      ensures keys == [] && entries == map[]
    {
      this.camelCase := camelCase;
      keys := [];
      entries := map[];
    }

    /**
      `_addQuestion(q, msg, cb)`: store `q` under its name first, then resolve the optional
      message and callback. `received` is what a callback was invoked with, if one was.
     */
    method AddQuestion(q: Question, msg: Option<Message>, cb: Option<Callback>)
      returns (received: Option<CallbackArg>, err: Option<Error>)
      requires Valid()
      modifies this, q
      ensures Valid()
      ensures keys == Upsert(old(keys), q.name) && entries == old(entries)[q.name := q]
      ensures (q.State(), err) == Overload(old(q.State()), q.originalName, msg, cb)
      ensures received == (
        if cb.Some? then Some(if msg.Some? then OnQuestion(q) else OnMessage(old(q.message)))
        else if msg.Some? && msg.value.Handler? then Some(OnQuestion(q))
        else None)
    {
      entries := entries[q.name := q];
      keys := Upsert(keys, q.name);
      if msg.None? && cb.None? {
        return None, None;
      }
      if cb.None? {
        if msg.value.Text? {
          var _ := q.Message(msg);
          return None, None;
        }
        err := q.Run(msg.value.callback);
        return Some(OnQuestion(q)), err;
      }
      var reply := q.Message(msg);
      match reply
      case Value(m) =>
        // the callback is handed the message value and cannot reach the question
        return Some(OnMessage(m)), None;
      case Self(_) =>
        err := q.Run(cb.value);
        return Some(OnQuestion(q)), err;
    }

    /** `_clearCollection`: replace the map by an empty one. */
    method ClearCollection()
      modifies this
      ensures Valid() && keys == [] && entries == map[]
    {
      keys := [];
      entries := map[];
    }

    /** `hasQuestion(name)`: an exact-key test; `name` is not normalised. */
    function HasQuestion(name: string): (b: bool)
      reads this
      requires Valid()
      ensures b <==> name in keys
    {
      name in entries
    }

    /**
      `getQuestion(name, cb)`: invoke `cb` once, with null on a miss and with the stored
      question on a hit. A miss throws nothing.
     */
    method GetQuestion(name: string, cb: Callback) returns (received: CallbackArg, err: Option<Error>)
      requires Valid()
      modifies if name in entries then {entries[name]} else {}
      ensures keys == old(keys) && entries == old(entries)
      ensures !HasQuestion(name) ==> received == OnNull && err == None
      ensures HasQuestion(name) ==> received == OnQuestion(entries[name])
      ensures HasQuestion(name) ==>
        (entries[name].State(), err) == RunSteps(old(entries[name].State()), entries[name].originalName, cb)
    {
      if name !in entries {
        return OnNull, None;
      }
      var q := entries[name];
      err := q.Run(cb);
      return OnQuestion(q), err;
    }

    /**
      `input`, `editor`, `password`, `number`, `list`, `checkbox`: construct a question of `kind`
      named `name`, then add it with `msg` and `cb`. An empty name throws before the map changes.
     */
    method NewQuestion(kind: Kind, name: string, msg: Option<Message>, cb: Option<Callback>)
      returns (err: Option<Error>)
      requires Valid() && kind != Base
      modifies this
      ensures Valid()
      ensures name == "" ==> err == Some(MissingName) && keys == old(keys) && entries == old(entries)
      ensures name != "" ==> keys == Upsert(old(keys), camelCase(name))
      ensures name != "" ==> camelCase(name) in entries
      ensures name != "" ==> entries == old(entries)[camelCase(name) := entries[camelCase(name)]]
      ensures name != "" ==> fresh(entries[camelCase(name)])
      ensures name != "" ==> entries[camelCase(name)].kind == kind && entries[camelCase(name)].originalName == name
      ensures name != "" ==> (entries[camelCase(name)].State(), err) == Overload(Initial, name, msg, cb)
    {
      var created := Question.New(kind, name, camelCase);
      if created.Failure? {
        return Some(created.error);
      }
      var q := created.value;
      var _, e := AddQuestion(q, msg, cb);
      return e;
    }

    /** The records of the questions under `ks`, in that order. */
    ghost function Records(ks: seq<string>): (r: seq<QuestionRecord>)
      reads this, entries.Values
      requires forall k :: k in ks ==> k in entries
      ensures |r| == |ks|
      ensures forall i :: 0 <= i < |ks| ==> r[i] == entries[ks[i]].Record()
      decreases |ks|
    {
      if ks == [] then [] else Records(ks[..|ks| - 1]) + [entries[ks[|ks| - 1]].Record()]
    }

    /** What `toObject` returns: one record per registered question, in registry order. */
    ghost function Snapshot(): (r: seq<QuestionRecord>)
      reads this, entries.Values
      requires Valid()
      ensures |r| == |keys|
      ensures forall i :: 0 <= i < |keys| ==> r[i] == entries[keys[i]].Record()
    {
      Records(keys)
    }

    /** `toObject`: map every question, in registry order, to its record. */
    method ToObject() returns (records: seq<QuestionRecord>)
      requires Valid()
      ensures records == Snapshot()
    {
      records := [];
      for i := 0 to |keys|
        invariant records == Records(keys[..i])
      {
        var rec := entries[keys[i]].ToObject();
        assert keys[..i + 1][..i] == keys[..i];
        records := records + [rec];
      }
      assert keys[..|keys|] == keys;
    }

    /**
      `answers`: take the `toObject` snapshot, clear the registry, and hand the snapshot to the
      prompt engine; `batch` is what the engine receives.
     */
    method Answers() returns (batch: seq<QuestionRecord>)
      requires Valid()
      modifies this
      ensures batch == old(Snapshot())
      ensures Valid() && keys == [] && entries == map[] && Snapshot() == []
    {
      batch := ToObject();
      ClearCollection();
    }
  }
}
