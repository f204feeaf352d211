# question-factory in Dafny

A model of the core of *question-factory*, a fluent builder for command-line prompt definitions.
Two parts are modelled:

- **`Question`** (`question.dfy`, module `Questions`). A prompt definition. Its original name,
  camel-cased name and kind are fixed at construction. Its message, default answer and validator
  are overwritten in place by chainable getter/setter methods. `toObject` serialises it, and
  emits `default` and `validate` only when they are set.
- **`QFactory`** (`factory.dfy`, module `Factory`). The registry of questions keyed by
  normalised name, in insertion order. It resolves the optional message/callback overload when a
  question is added. It offers exact-key lookup, lookup that reports a miss through the callback,
  ordered serialisation, and `answers`, which takes a snapshot and then empties the registry.

The validator functions the source installs are pure functions (`validators.dfy`, module
`Validators`). Its two fixed regular expressions are written out as string predicates.
`common.dfy` holds `Option` and `Result`.

Modelling choices:

- The source keeps one process-wide `Map` in a static field. Here it is an explicit `Registry`
  object: `keys` holds the key order and `entries` the map.
- lodash `camelCase` is not interpreted. It is a `string -> string` parameter of the registry and
  of the `Question` constructor. The model assumes nothing about it.
- JavaScript's one-method getter/setter (`message()` reads, `message(x)` writes and returns
  `this`) is one method taking an `Option`. It returns `Value(v)` or `Self(question)`.
- A caller's configuration callback is modelled as the builder calls it makes on the question,
  in order (`Callback = seq<Step>`). `Question.Run` executes them through the question's methods.
  Only `validate` with a bad argument can throw. The throw stops the callback, and the calls made
  before it stay applied.
- `_message` can hold a function: `_addQuestion` calls `q.message(msg)` even when `msg` is a
  function and a callback is also given. So `Message` is `Text(s)` or `Handler(callback)`.
- Thrown errors are `Result`/`Option` values carrying an `Error`.
- Question kinds are a tag (`Kind`). The six factory constructors (`input`, `editor`,
  `password`, `number`, `list`, `checkbox`) differ only in the kind they build. They are one
  method, `Registry.NewQuestion(kind, …)`.

In these points the model follows the code:

- `hasQuestion` does not normalise its argument. A differently cased or spaced spelling of a
  registered name is found only if it is itself the stored camel-cased key.
- `_addQuestion` stores the question *before* it applies the message or runs a callback. A
  callback that throws leaves the question registered.
- When only a callback is given (`msg` undefined), the callback receives `q.message(undefined)`.
  That is the current message value, not the question. The model's callback then has no effect.
- The error for a bad `validate` argument is a plain `Error`, not a dedicated type error.
- The model does not assume that normalising a name is idempotent, because nothing in the code
  shows it.

## Model

| member | source | states |
|---|---|---|
| `Validators.MatchesEmail` | src/Question.js:100 | `/^.+@[^.].*\.[a-z]{2,}$/.test(s)` holds exactly when the regex-shaped split `EmailShape(s)` exists |
| `Validators.ScanEmailIsPattern` | src/Question.js:100 | the hand-coded e-mail scan accepts exactly the strings that `^.+@[^.].*\.[a-z]{2,}$` matches: some `@` after a non-empty line-terminator-free prefix, followed by a non-dot, a line-terminator-free run, a dot and at least two lower-case letters to the end |
| `Validators.LastIndex` | src/Question.js:100 | the index returned holds the character and no later index does; `None` means the character does not occur (locates the `\.` before the final `[a-z]{2,}`) |
| `Validators.HasMailbox` | src/Question.js:100 | the search from index `at` succeeds iff some `@` at or after `at` splits the text as `.+@[^.].*` |
| `Validators.Judge` | src/Question.js:89-106 | the `validateEmpty` validator accepts iff the answer is non-empty and otherwise says "<original name> cannot be empty."; the `validateEmail` validator accepts iff the pattern matches and otherwise says "Please provide a valid email address."; the `validateOnlyNumber` validator gives the as-written verdict: it never accepts, it returns `false` exactly for "", and otherwise says "Please provide only numbers."; a caller's validator gives its own verdict |
| `Validators.EmailAcceptsExample` | src/Question.js:98-102 | "a@b.co" matches the e-mail pattern |
| `Validators.EmailRefusesExample` | src/Question.js:98-102 | "not-an-email" does not match the e-mail pattern |
| `Validators.OnlyNumberPatternMatchesOnlyEmpty` | src/Question.js:105 | `^(?=(\d)*)$` as written matches the empty string and nothing else |
| `Validators.OnlyNumberAsWritten` | src/Question.js:105 | the closure as written never returns `true`; it returns `false` iff the answer is "" and "Please provide only numbers." otherwise |
| `Validators.OnlyNumberAsWrittenRefusesNumerals` | src/Question.js:104-106 | the validator as written never accepts: it returns `false` for "" and "Please provide only numbers." for every other answer, numerals included |
| `Validators.OnlyNumberAsWrittenRefuses42` | src/Question.js:105 | "42" is a numeral and the validator as written refuses it |
| `Validators.OnlyNumberCorrected` | src/Question.js:104-106 | the corrected validator accepts iff the answer is a non-empty run of ASCII digits; otherwise it returns "Please provide only numbers." |
| `Questions.ValidateWith` | src/Question.js:76-80 | `validate(x)` succeeds iff `x` is a function or ''; a function is installed, '' clears the validator, and anything else fails with "Validate takes a function, received <typeof x>" |
| `Questions.RunStepsThrows` | src/Question.js:76-78 | a callback throws iff one of its calls passes `validate` something other than a function or '' |
| `Questions.RunStepsLastMessage` | src/Question.js:40-45 | a callback that does not throw and ends with `message(t)` leaves the message `t` |
| `Questions.Question.constructor` | src/Question.js:19-31 | a non-empty name gives original name = name, name = camelCase(name), and message, default and validator all '' |
| `Questions.Question.New` | src/Question.js:26-31 | construction fails iff the name is empty, with "You must provide a name for the question."; on success, a fresh question as the constructor leaves it |
| `Questions.Question.Message` | src/Question.js:40-45 | with no argument, returns the message and changes nothing; with an argument, stores it, returns the question and leaves the default and the validator unchanged |
| `Questions.Question.Default` | src/Question.js:55-60 | with no argument, returns the default and changes nothing; with an argument ('' included), stores it, returns the question and leaves the rest unchanged; `default('')` makes `isDefault` false |
| `Questions.Question.Validate` | src/Question.js:74-83 | with no argument, returns the validator and changes nothing; with a function, installs it; with '', clears it, so `isValidate` is false; with anything else, fails and changes nothing |
| `Questions.Question.ValidateEmpty` | src/Question.js:89-92 | installs the non-empty validator built from the original name (not the camel-cased one), whose verdict on '' is "<original name> cannot be empty." and returns the question |
| `Questions.Question.ValidateEmail` | src/Question.js:98-102 | installs the e-mail validator, leaves message and default unchanged, returns the question |
| `Questions.Question.ValidateOnlyNumber` | src/Question.js:104-106 | installs the number validator, leaves message and default unchanged, returns the question |
| `Questions.Question.IsDefault` | src/Question.js:112-114 | `isDefault` holds iff the default is not '' |
| `Questions.Question.IsValidate` | src/Question.js:120-122 | `isValidate` holds iff a validator is installed (the field is not '') |
| `Questions.Question.ToObject` | src/Question.js:134-145 | the record always has type, name and message equal to the fields; it has `default` iff `isDefault` and `validate` iff `isValidate`, each equal to its field |
| `Questions.Question.Run` | src/QFactory.js:33-39 | invoking a callback on the question leaves exactly the state, and raises exactly the error, that its builder calls produce in order |
| `Factory.Upsert` | src/QFactory.js:28 | `Map.set` key order: an existing key keeps its position and the order is unchanged; a new key is appended at the end; the size grows by at most one; no key repeats |
| `Factory.Overload` | src/QFactory.js:26-41 | neither `msg` nor `cb`: no change; only a string `msg`: it becomes the message; only a function `msg`: it runs as the callback and no message is set; only `cb`: no change to the question; both: the message is set, then `cb` runs |
| `Factory.RunStepsKeepsMessage` | src/QFactory.js:39 | a callback that makes no `message` call leaves the message as it found it |
| `Factory.OverloadKeepsTextMessage` | src/QFactory.js:32-39 | a string message passed to the factory is the question's message afterwards, unless the callback itself sets one |
| `Factory.OverloadExamples` | src/QFactory.js:86-90 | `input(n)` leaves an empty message; `input(n, 'Enter your name')` sets it; `input(n, q => q.default('x'))` sets the default only; `input(n, 'Enter your name', validateEmpty)` sets the message and installs the non-empty validator for n |
| `Factory.ValidateEmptyCallback` | src/QFactory.js:176-178 | the callback installs the non-empty validator for the question's original name and changes nothing else |
| `Factory.ValidateEmailCallback` | src/QFactory.js:184-186 | the callback installs the e-mail validator and changes nothing else |
| `Factory.Registry.constructor` | src/QFactory.js:15 | a new registry is empty and consistent |
| `Factory.Registry.AddQuestion` | src/QFactory.js:25-42 | the registry maps `q.name` to `q`, with the key order given by `Upsert` and all other entries unchanged; the question ends in the state `Overload` gives; a callback receives the question, or the current message when `msg` is absent |
| `Factory.Registry.ClearCollection` | src/QFactory.js:48-50 | the registry becomes empty |
| `Factory.Registry.HasQuestion` | src/QFactory.js:57-59 | true iff the exact, un-normalised name is one of the registry's keys; reads only |
| `Factory.Registry.GetQuestion` | src/QFactory.js:67-72 | the callback is invoked once, with null on a miss and with the stored question on a hit; a miss raises nothing; only the found question can change, as the callback's calls say; the registry is unchanged |
| `Factory.Registry.NewQuestion` | src/QFactory.js:86-170 | an empty name fails with the missing-name error and leaves the registry unchanged; otherwise a fresh question of the kind is stored under camelCase(name) (by `Upsert` order), configured as `Overload` gives from the initial settings |
| `Factory.Registry.Records` | src/QFactory.js:193 | one record per key, in key order, each the stored question's `toObject` |
| `Factory.Registry.Snapshot` | src/QFactory.js:192-194 | as many records as registered questions; element i is the `toObject` of the i-th question in registry order |
| `Factory.Registry.ToObject` | src/QFactory.js:192-194 | returns exactly the snapshot of the registry, changing nothing |
| `Factory.Registry.Answers` | src/QFactory.js:196-200 | the batch handed to the prompt engine equals the snapshot taken before the call; afterwards the registry is empty and its snapshot is [] |

## Findings

| source | as written | input that shows it | evidently intended | confidence | as-written member | corrected member |
|---|---|---|---|---|---|---|
| src/Question.js:105 | `/^(?=(\d)*)$/g.test(text) ? false : 'Please provide only numbers.'`: the look-ahead always succeeds, so the pattern matches only "". The validator returns `false` for "" and the error message for every other answer. | "42" is refused with "Please provide only numbers." | accept an answer made only of digits (`^\d+$`), and return the message otherwise | high that the code refuses every numeral, medium on whether "" was meant to pass; not executed | `Validators.OnlyNumberAsWritten` | `Validators.OnlyNumberCorrected` |

`Validators.Judge`, and with it every question given `validateOnlyNumber`, uses the validator as written. `Validators.OnlyNumberAsWrittenRefusesNumerals` and `Validators.OnlyNumberAsWrittenRefuses42` exhibit the discrepancy. `Validators.OnlyNumberCorrected` states the intended behaviour.

## Left out

- The `inquirer` `prompt` call in `answers` (src/QFactory.js:199) is left out. It is an external, asynchronous engine. `Answers` returns the batch it would receive.
- The sources of `Input`, `Password`, `Editor`, `Number`, `List`, `Checkbox` and `Choice` are not part of this model. Kinds are tags only. There are no choices, page size, highlight or loop flags, and no list-specific `toObject` fields. The type strings are not modelled either. Any validation that `Number` might install itself is not modelled.
- lodash `camelCase`, `isUndefined` and `isString` are not modelled beyond their role. `camelCase` is an arbitrary function parameter. An absent argument is `None`, and a string message is `Text`.
- Factory.Registry.AddQuestion: a callback handed a value other than a question has no effect in the model. This is the message in the `msg`-undefined case. In JavaScript a callback that calls a builder method on that value throws a `TypeError`.
- Factory.Registry.GetQuestion: on a miss the callback receives null and has no effect in the model. A JavaScript callback that dereferences null throws a `TypeError`.
- Callbacks are sequences of builder calls. Closures with other side effects, branching, or reads of the question are not modelled.
- `message(x)` and `default(x)` accept any JavaScript value in the source. The model takes strings, and also a function for the message.
- `validate(x)` with a non-function argument is modelled by its `typeof`. The values themselves are not kept.
- The static factory methods return the `QFactory` class for chaining. The model's methods return what a callback received and the error raised instead, because the registry is the receiver.
- `index.d.ts` (type declarations only) and `src/index.js` (re-exports) have no behaviour to model.
- Strings are sequences of Unicode scalar values, not UTF-16 code units.
