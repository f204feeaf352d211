/**
  A prompt definition (src/Question.js): identity fixed at construction, and three settings —
  message, default answer and validator — that chainable getter/setter methods overwrite in place.
  The empty string is the source's "unset" marker for `default` and `validate`; here an unset
  validator is `None`.
 */
module Questions {
  import opened Common
  import opened Validators

  /** The discriminant `_type`: the base class leaves it empty, each prompt variant fixes it. */
  datatype Kind = Base | Input | Password | Editor | Number | List | Checkbox

  /** A builder call a configuration callback makes on the question it is handed. */
  datatype Step =
    | SetMessage(text: string)        // q.message(text)
    | SetDefault(text: string)        // q.default(text)
    | SetValidate(arg: ValidateArg)   // q.validate(arg)
    | UseValidateEmpty                // q.validateEmpty
    | UseValidateEmail                // q.validateEmail
    | UseValidateOnlyNumber           // q.validateOnlyNumber

  /** A configuration callback, as the builder calls it makes in order. */
  type Callback = seq<Step>

  /** What `_message` holds: text, or the function stored when the factory passes one as message. */
  datatype Message = Text(text: string) | Handler(callback: Callback)

  /** The `typeof` of a defined argument that is neither a function nor a string. */
  datatype JsType = NumberType | BooleanType | ObjectType | SymbolType | BigIntType

  function TypeOf(t: JsType): string {
    match t
    case NumberType => "number"
    case BooleanType => "boolean"
    case ObjectType => "object"
    case SymbolType => "symbol"
    case BigIntType => "bigint"
  }

  /** A defined argument to `validate`. */
  datatype ValidateArg = Function(validator: Validator) | Str(text: string) | OtherValue(kind: JsType)

  /** The errors the core throws. */
  datatype Error =
    | MissingName                      // constructor given an empty name
    | ValidateNotFunction(received: string)  // `validate` given a non-function other than ''

  function ErrorMessage(e: Error): string {
    match e
    case MissingName => "You must provide a name for the question."
    case ValidateNotFunction(received) => "Validate takes a function, received " + received
  }

  /** The mutable part of a question, as a value. */
  datatype Settings = Settings(message: Message, default: string, validation: Option<Validator>)

  /** The settings of a freshly constructed question: every field is ''. */
  const Initial: Settings := Settings(Text(""), "", None)

  /** The plain record `toObject` hands to the prompt engine; absent properties are `None`. */
  datatype QuestionRecord = QuestionRecord(
    kind: Kind, name: string, message: Message, default: Option<string>, validate: Option<Validator>)

  /** A getter/setter's reply: the current value (no argument) or the question itself, for chaining. */
  datatype Reply<T> = Value(value: T) | Self(question: Question)

  // ---------------------------------------------------------------------------
  // Builder calls as functions on settings
  // ---------------------------------------------------------------------------

  /** Whether `validate(arg)` accepts `arg` rather than throwing. */
  predicate Accepts(arg: ValidateArg) {
    arg.Function? || arg == Str("")
  }

  /** What `validate(arg)` stores, or the error it throws. */
  function ValidateWith(arg: ValidateArg): (r: Result<Option<Validator>, Error>)
    ensures r.Success? <==> Accepts(arg)
    ensures arg.Function? ==> r == Success(Some(arg.validator))
    ensures arg == Str("") ==> r == Success(None)
    ensures arg.Str? && arg.text != "" ==> r == Failure(ValidateNotFunction("string"))
    ensures arg.Str? && arg.text != "" ==>
      ErrorMessage(r.error) == "Validate takes a function, received string"
    ensures arg.OtherValue? ==> r == Failure(ValidateNotFunction(TypeOf(arg.kind)))
  {
    match arg
    case Function(v) => Success(Some(v))
    case Str(text) => if text == "" then Success(None) else Failure(ValidateNotFunction("string"))
    case OtherValue(t) => Failure(ValidateNotFunction(TypeOf(t)))
  }

  /** The effect of one builder call on a question whose original name is `subject`. */
  function ApplyStep(s: Settings, subject: string, step: Step): Result<Settings, Error> {
    match step
    case SetMessage(text) => Success(s.(message := Text(text)))
    case SetDefault(text) => Success(s.(default := text))
    case SetValidate(arg) =>
      (match ValidateWith(arg)
       case Success(v) => Success(s.(validation := v))
       case Failure(e) => Failure(e))
    case UseValidateEmpty => Success(s.(validation := Some(NotEmpty(subject))))
    case UseValidateEmail => Success(s.(validation := Some(Email)))
    case UseValidateOnlyNumber => Success(s.(validation := Some(OnlyNumber)))
  }

  /**
    Running a callback: its calls in order, stopping at the first that throws. The settings
    returned are those the question is left with, which keep the calls made before the throw.
   */
  function RunSteps(s: Settings, subject: string, steps: Callback): (Settings, Option<Error>)
    decreases |steps|
  {
    if steps == [] then (s, None)
    else
      match ApplyStep(s, subject, steps[0])
      case Failure(e) => (s, Some(e))
      case Success(s') => RunSteps(s', subject, steps[1..])
  }

  /** A call that throws. */
  predicate Throws(step: Step) {
    step.SetValidate? && !Accepts(step.arg)
  }

  /** A callback throws exactly when one of its calls passes `validate` a bad argument. */
  lemma {:induction false} RunStepsThrows(s: Settings, subject: string, steps: Callback)
    ensures RunSteps(s, subject, steps).1.Some? <==> exists i :: 0 <= i < |steps| && Throws(steps[i])
    decreases |steps|
  {
    if steps != [] {
      match ApplyStep(s, subject, steps[0])
      case Failure(e) =>
        assert Throws(steps[0]);
      case Success(s') =>
        RunStepsThrows(s', subject, steps[1..]);
        assert !Throws(steps[0]);
        assert forall i :: 0 < i < |steps| ==> steps[i] == steps[1..][i - 1];
    }
  }

  /** A callback that throws nothing leaves the message of its last `message` call, if any. */
  lemma {:induction false} RunStepsLastMessage(s: Settings, subject: string, steps: Callback, text: string)
    requires steps != [] && steps[|steps| - 1] == SetMessage(text)
    requires forall i :: 0 <= i < |steps| ==> !Throws(steps[i])
    ensures RunSteps(s, subject, steps) == (RunSteps(s, subject, steps).0, None)
    ensures RunSteps(s, subject, steps).0.message == Text(text)
    decreases |steps|
  {
    if |steps| > 1 {
      assert !Throws(steps[0]);
      var s' := ApplyStep(s, subject, steps[0]).value;
      assert forall i :: 0 <= i < |steps[1..]| ==> steps[1..][i] == steps[i + 1];
      RunStepsLastMessage(s', subject, steps[1..], text);
    }
  }

  // ---------------------------------------------------------------------------
  // The question object
  // ---------------------------------------------------------------------------

  class Question {
    const originalName: string   // the name as the caller gave it
    const name: string           // camelCase(originalName): the registry and answer key
    const kind: Kind
    var message: Message
    var default: string
    var validation: Option<Validator>

    /** The mutable state as a value. */
    function State(): Settings
      reads this
    {
      Settings(message, default, validation)
    }

    /** The success path of `new Question(name)`; `camelCase` is the name normaliser. */
    constructor (kind: Kind, name: string, camelCase: string -> string)
      requires name != ""
      ensures this.originalName == name && this.name == camelCase(name) && this.kind == kind
      ensures State() == Initial
    {
      this.originalName := name;
      this.name := camelCase(name);
      this.kind := kind;
      message := Text("");
      default := "";
      validation := None;
    }

    /** `new Question(name)`: throws when the name is empty. */
    static method New(kind: Kind, name: string, camelCase: string -> string) returns (r: Result<Question, Error>)
      ensures r.Failure? <==> name == ""
      ensures r.Failure? ==> r.error == MissingName
      ensures r.Failure? ==> ErrorMessage(r.error) == "You must provide a name for the question."
      ensures r.Success? ==> fresh(r.value) && r.value.originalName == name
      ensures r.Success? ==> r.value.name == camelCase(name) && r.value.kind == kind
      ensures r.Success? ==> r.value.State() == Initial
    {
      if name == "" {
        return Failure(MissingName);
      }
      var q := new Question(kind, name, camelCase);
      return Success(q);
    }

    /** `message(arg)`: with no argument, read the message; with one, store it and chain. */
    method Message(arg: Option<Message>) returns (r: Reply<Message>)
      modifies this
      ensures arg.None? ==> r == Value(message) && State() == old(State())
      ensures arg.Some? ==> r == Self(this) && State() == old(State()).(message := arg.value)
    {
      if arg.None? {
        return Value(message);
      }
      message := arg.value;
      return Self(this);
    }

    /** `default(arg)`: with no argument, read the default; with one ('' included), store it and chain. */
    method Default(arg: Option<string>) returns (r: Reply<string>)
      modifies this
      ensures arg.None? ==> r == Value(default) && State() == old(State())
      ensures arg.Some? ==> r == Self(this) && State() == old(State()).(default := arg.value)
      ensures arg == Some("") ==> !IsDefault()
    {
      if arg.None? {
        return Value(default);
      }
      default := arg.value;
      return Self(this);
    }

    /**
      `validate(arg)`: with no argument, read the validator; with a function, install it; with '',
      clear it; with anything else, throw and change nothing.
     */
    method Validate(arg: Option<ValidateArg>) returns (r: Result<Reply<Option<Validator>>, Error>)
      modifies this
      ensures arg.None? ==> r == Success(Value(validation)) && State() == old(State())
      ensures arg.Some? && !Accepts(arg.value) ==> r.Failure? && State() == old(State())
      ensures arg.Some? && !Accepts(arg.value) ==> r.error == ValidateWith(arg.value).error
      ensures arg.Some? && arg.value.Function? ==>
        r == Success(Self(this)) && State() == old(State()).(validation := Some(arg.value.validator))
      ensures arg == Some(Str("")) ==>
        r == Success(Self(this)) && State() == old(State()).(validation := None) && !IsValidate()
    {
      if arg.None? {
        return Success(Value(validation));
      }
      match ValidateWith(arg.value)
      case Failure(e) =>
        return Failure(e);
      case Success(v) =>
        validation := v;
        return Success(Self(this));
    }

    /** `validateEmpty`: install the validator refusing '' with a message naming the original name. */
    method ValidateEmpty() returns (r: Question)
      modifies this
      ensures r == this && State() == old(State()).(validation := Some(NotEmpty(originalName)))
      ensures forall custom :: Judge(validation.value, "", custom) == Explain(originalName + " cannot be empty.")
    {
      var v := Validate(Some(Function(NotEmpty(originalName))));
      return this;
    }

    /** `validateEmail`: install the e-mail validator. */
    method ValidateEmail() returns (r: Question)
      modifies this
      ensures r == this && State() == old(State()).(validation := Some(Email))
    {
      var v := Validate(Some(Function(Email)));
      return this;
    }

    /** `validateOnlyNumber`: install the number validator. */
    method ValidateOnlyNumber() returns (r: Question)
      modifies this
      ensures r == this && State() == old(State()).(validation := Some(OnlyNumber))
    {
      var v := Validate(Some(Function(OnlyNumber)));
      return this;
    }

    /** `isDefault`: a default answer is set. */
    predicate IsDefault()
      reads this
      ensures IsDefault() <==> default != ""
    {
      default != ""
    }

    /** `isValidate`: a validator is installed. */
    predicate IsValidate()
      reads this
      ensures IsValidate() <==> validation != None
    {
      validation.Some?
    }

    /** The record `toObject` builds. */
    function Record(): QuestionRecord
      reads this
    {
      QuestionRecord(kind, name, message,
        if IsDefault() then Some(default) else None,
        if IsValidate() then validation else None)
    }

    /**
      `toObject`: type, name and message always; `default` only when `isDefault`, `validate` only
      when `isValidate`, each equal to its field.
     */
    method ToObject() returns (r: QuestionRecord)
      ensures r.kind == kind && r.name == name && r.message == message
      ensures r.default.Some? <==> IsDefault()
      ensures r.default.Some? ==> r.default.value == default
      ensures r.validate.Some? <==> IsValidate()
      ensures r.validate == validation
      ensures r == Record()
    {
      r := QuestionRecord(kind, name, message, None, None);
      if IsDefault() {
        r := r.(default := Some(default));
      }
      if IsValidate() {
        r := r.(validate := validation);
      }
    }

    /** Invoking the callback `cb` on this question: its calls run in order until one throws. */
    method Run(cb: Callback) returns (err: Option<Error>)
      modifies this
      ensures (State(), err) == RunSteps(old(State()), originalName, cb)
    {
      var i := 0;
      while i < |cb|
        invariant 0 <= i <= |cb|
        invariant RunSteps(old(State()), originalName, cb) == RunSteps(State(), originalName, cb[i..])
      {
        var step := cb[i];
        assert cb[i..][1..] == cb[i + 1..];
        match step {
          case SetMessage(text) =>
            var _ := Message(Some(Text(text)));
          case SetDefault(text) =>
            var _ := Default(Some(text));
          case SetValidate(arg) =>
            var r := Validate(Some(arg));
            if r.Failure? {
              return Some(r.error);
            }
          case UseValidateEmpty =>
            var _ := ValidateEmpty();
          case UseValidateEmail =>
            var _ := ValidateEmail();
          case UseValidateOnlyNumber =>
            var _ := ValidateOnlyNumber();
        }
        i := i + 1;
      }
      return None;
    }
  }
}
