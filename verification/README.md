# OptionsValidator, modelled in Dafny

A model of `OptionsValidator` from the repository npm-options-validator
(`package.js`): a class whose constructor validates an options object
against a template object and throws an `OptionsValidatorException` on the
first violation, and whose `ToObject()` hands the options back.

The model follows the code as written, quirks included:

- `outcomes.dfy` — `Outcome` (pass, or the thrown error) and `Result`.
- `js_values.dfy` (`JsValues`) — JSON-like JavaScript values with integer
  numbers, `typeof`, strict equality (also the element test of `includes`),
  the ToNumber coercion behind `<=`/`>=`, and the first-letter
  capitalisation used in the type-error message.
- `template.dfy` (`Templates`) — a template object. Its descriptor fields
  (`type`, `minValue`, `maxValue`, `minLength`, `maxLength`,
  `acceptedValues`, `regexFormat`) are typed, and its other own properties
  are listed separately. `Lookup` is `key in TEMPLATE` / `TEMPLATE[key]`.
  As in JavaScript, a nested template is the same object as the
  descriptor, so its descriptor fields are keys too. The methods inherited
  from `Object.prototype` (`constructor`, `toString`, ...) are found by `in`.
- `rules.dfy` (`Rules`) — the error datatype, with one variant per message
  plus the runtime `TypeError`/`SyntaxError` the code can provoke. It also
  holds `ValidateType`, the six constraint rules, and the fail-fast chain of
  package.js:31-36.
- `validator.dfy` (`Validator`) — `ValidateOptions`, the loop over the
  options' keys (`ValidateKeys`) and its body (`ValidateKey`), the
  constructor (`Construct`) and `ToObject`.
- `properties.dfy` (`Properties`) — what the validator guarantees.
- `quirks.dfy` (`Quirks`) — what the code does that its names and
  messages do not suggest, with concrete instances.

Two calls leave the model and are parameters (`Rules.Externals`):
`OptionsValidator.ObjectIsOptionsObject(key)`, which the class calls at
package.js:28 but never defines, and `new RegExp(p).test(v)`. For the
first, `None` is the call throwing, which is what the shipped class does,
and `Some(b)` is a definition that returns `b`. For the second, `None` is a
pattern the `RegExp` constructor rejects.

Behaviour of the code as written that the lemmas bring out:

- The descriptor type check compares `type` with the value itself
  (package.js:52). Its mismatch message indexes the template object as a
  string (package.js:55), so the runtime throws a `TypeError`. A
  descriptor therefore accepts only the string equal to its `type`
  (`Quirks.DescriptorTypeComparesValue`, `Quirks.PortNumberRejected`).
- Recursion into a nested template `return`s (package.js:29), so the keys
  after it are never checked. Because of the type check above, the
  recursion is always handed a string and passes at once
  (`Quirks.NestedEntryEndsWalk`, `Quirks.NestedKeyMasksLaterSibling`).
- minLength and maxLength compare the bound with the value, not with its
  length (package.js:88, 99), and the minLength message prints
  `minValue - 1` (package.js:92).
- `key in TEMPLATE` also sees inherited members, so an option named
  `constructor` or `toString` makes validation throw
  (`Properties.InheritedKeyThrows`).

Validation is a pure function of the two trees, so validating the same pair
twice gives the same outcome by construction.

## Model

| member | source | states |
|---|---|---|
| `JsValues.TypeOf` | package.js:41-42 | `typeof` answers "object" exactly for null, arrays and objects, and is always one of five type names |
| `JsValues.StrictEquals` | package.js:110 | `===` / `includes` equality: agrees with value equality on primitives and never holds for arrays or objects |
| `JsValues.ToNumber` | package.js:66 | the ToNumber coercion of a relational operand: a number is itself, `true`/`false` are 1/0, `null` is 0, and `undefined`, strings, arrays and objects give NaN (see Left out for numeric strings) |
| `JsValues.Capitalize` | package.js:44-46 | the type name in the message keeps its length and tail, and a lower-case ASCII first letter becomes exactly the corresponding upper-case letter |
| `Templates.FindOwn` | package.js:21 | an own property is found exactly when some member has that key, and the entry found belongs to such a member |
| `Templates.OwnProperty` | package.js:21 | `TEMPLATE[key]` for an own key: a descriptor field is present exactly when the template declares it, `type` reads as the type-name string, and any other key is the first matching member |
| `Templates.Lookup` | package.js:21 | `key in TEMPLATE` fails exactly when the key is neither an own property, nor an inherited method, nor `__proto__`; own properties shadow inherited ones |
| `Rules.TagMismatch` | package.js:43-47 | a bare-tag mismatch throws the validator's type error naming the key and the capitalised tag exactly when the tag is a non-empty string, and a runtime TypeError otherwise |
| `Rules.ValidateType` | package.js:40-60 | a bare entry passes iff it equals `typeof` of the value; an inherited method never passes; an object entry without `type` throws the template error; an object entry with `type` passes iff the value is that very string, else a runtime TypeError |
| `Rules.MinValueRule` | package.js:62-71 | undeclared is a no-op; on numbers the bound is inclusive; a failure reports the key and `minValue - 1` |
| `Rules.MaxValueRule` | package.js:73-82 | undeclared is a no-op; on numbers the bound is inclusive; a failure reports the key and `maxValue + 1` |
| `Rules.MinLengthRule` | package.js:84-93 | undeclared is a no-op; on numbers it passes iff the value itself is at least the bound; a failure is the length error naming the key and showing `minValue - 1` (NaN when minValue is undeclared) |
| `Rules.MaxLengthRule` | package.js:95-104 | undeclared is a no-op; on numbers it passes iff the value itself is at most the bound; a failure reports the key and `maxLength + 1` |
| `Rules.AcceptedValuesRule` | package.js:106-119 | undeclared is a no-op; a primitive passes iff it is in the list; a failure carries the value, the key and the whole list |
| `Rules.RegexFormatRule` | package.js:121-131 | undeclared is a no-op; passes iff the compiled pattern matches; fails only with the format error for the key or a pattern SyntaxError |
| `Rules.ConstraintChain` | package.js:31-36 | the six rule calls as written equal the first failure of the list minValue, maxValue, minLength, maxLength, acceptedValues, regexFormat |
| `Validator.ValidateOptions` | package.js:15-18 | options that are not a non-array object (or are null) pass against any template; an error that names a key names a key of the options |
| `Validator.ValidateKey` | package.js:21-36 | the loop body for one key: a key the template lacks is skipped, and an error it ends the walk with that names a key names this key |
| `Validator.ValidateKeys` | package.js:20-37 | a failure needs some option key that the template has, and an error naming a key names one of the options' keys |
| `Validator.Construct` | package.js:5-9 | construction succeeds exactly when validation passes, stores the given template and options unchanged, and otherwise throws validation's error |
| `Properties.FirstFailureMeaning` | package.js:31-36 | a fail-fast sequence passes iff every check passes, and otherwise fails with the error of a check preceded only by passes |
| `Properties.ChainFailFast` | package.js:31-36 | the chain passes iff all six rules pass; a failure is the error of the earliest failing rule |
| `Properties.MinValueBoundary` | package.js:62-71 | a value equal to minValue passes; the number a failure message shows is rejected and the next number is accepted |
| `Properties.MaxValueBoundary` | package.js:73-82 | a value equal to maxValue passes; the number a failure message shows is rejected and the previous number is accepted |
| `Properties.MaxLengthBoundary` | package.js:95-104 | on numbers a value equal to maxLength passes; the number a failure message shows is rejected and the previous number is accepted |
| `Properties.AcceptedValuesMembership` | package.js:106-119 | only membership counts: appending a primitive to the list makes it pass, a passing value still passes when the list grows at either end, and no list accepts an array or object |
| `Properties.UnknownKeyIgnored` | package.js:20-23 | inserting anywhere an option whose key the template lacks leaves the outcome unchanged |
| `Properties.UnknownKeysPass` | package.js:20-23 | options none of whose keys the template has always pass |
| `Properties.NextIffClears` | package.js:21-36 | the loop body moves on to the next key exactly when the template lacks the key, or the value passes the type check and, for an object entry, the helper calls it a descriptor and all six rules pass |
| `Properties.WalkOutcome` | package.js:20-37 | the walk passes exactly when every key it reaches moves on or ends the walk with a pass; a failure is the error of the first key that does not move on |
| `Properties.AllKeysClearPass` | package.js:20-37 | options every key of which clears the loop body pass |
| `Properties.UnusedTemplateKeyIgnored` | package.js:20-23 | adding a template key that no option uses leaves the outcome unchanged |
| `Properties.InheritedKeyThrows` | package.js:21-25 | an option named after an `Object.prototype` method, which the template does not define, makes validation throw a runtime TypeError |
| `Properties.BareTagEntry` | package.js:25-27 | a bare tag fails exactly when `typeof` differs, naming the key and the capitalised tag, and otherwise moves straight to the next key with no other rule |
| `Properties.DescriptorWithoutType` | package.js:49-51 | an object entry without `type` throws "Template option 'type' cannot be 'undefined'." whatever its constraints |
| `Properties.DescriptorEntry` | package.js:25-36 | a descriptor key: type check, then the constraint chain, then the next key; success implies every declared rule passed |
| `Validator.ToObject` | package.js:11-13 | `ToObject()` returns the stored options |
| `Properties.ConstructThenToObject` | package.js:5-13 | after a successful construction `ToObject` returns exactly the options passed in |
| `Quirks.DescriptorTypeComparesValue` | package.js:50-58 | a descriptor's type check passes iff the value is the string `type`, and its failure is always a runtime TypeError |
| `Quirks.PortNumberRejected` | package.js:50-58 | `{port: {type: "number", minValue: 1, maxValue: 65535}}` rejects 70000 and 8080 alike with a runtime TypeError |
| `Quirks.PortStringReachesRules` | package.js:31 | the string "number" passes that type check and then fails minValue, showing 0 |
| `Quirks.MissingHelperThrows` | package.js:28 | with `ObjectIsOptionsObject` undefined, an object entry whose type check passes ends in a runtime TypeError |
| `Quirks.NestedEntryEndsWalk` | package.js:28-29 | a nested entry's outcome is the whole walk's outcome, independent of the following keys, and the recursion passes at once |
| `Quirks.NestedKeyMasksLaterSibling` | package.js:29 | a wrong `port` after a nested `db` key goes unreported, though on its own it is rejected with "Number" in the message |
| `Quirks.NestedObjectRejected` | package.js:52-57 | a nested configuration object is rejected by the type check before any recursion |
| `Quirks.LengthRulesCompareValue` | package.js:84-104 | minLength/maxLength measure a number as itself and reject non-numeric strings whatever their length |
| `Quirks.MinLengthMessageShowsMinValue` | package.js:92 | the minLength failure shows `minValue - 1` (NaN when minValue is undeclared), not `minLength - 1` |
| `Quirks.ConstructorKeyThrows` | package.js:21-25 | the option `constructor` against the empty template throws instead of being ignored |
| `Quirks.EmptyTagThrows` | package.js:42-46 | an empty type name rejects every value with a runtime TypeError |
| `Quirks.NameScenario` | package.js:5-13 | `{name: "string"}` accepts `{name: "server-1"}` and the instance holds those very options |

## Left out

- package.js has no `required` or `notAcceptedValues` rule, no `file-path`, `folder-path` or `list` type names and no `listContents` check, so the model has none of them.
- package.js compares a descriptor's `type` with the value itself and ends the walk at a nested template (package.js:29, 52); the model does the same and does not model a `typeof` comparison or a walk that goes on to the siblings.

- The `OptionsValidatorException` class and `module.exports` (package.js:134-141): errors are the `Rules.Error` datatype, one variant per message with the values it shows, not formatted strings.
- `ObjectIsOptionsObject` (package.js:28) has no definition in the source; it is a parameter, not an invented predicate.
- Regular-expression semantics (package.js:125-126) belong to the JavaScript engine; pattern compilation and matching are a parameter.
- Numbers are integers: floating point, NaN and Infinity as values are not modelled.
- `JsValues.ToNumber`: JavaScript coerces a string, array or object operand of `<=`/`>=` through ToNumber ("5" becomes 5, "" and [] become 0); the model treats every such operand as NaN, so these comparisons are false. This agrees with JavaScript for non-numeric strings and for objects.
- `JsValues.StrictEquals`: an array or object is `===` to itself in JavaScript; the model assumes the template and the options never share one, so such values are never equal.
- `Templates.Template`: a member of `others` named like a descriptor field is shadowed by the typed field and never read; a JavaScript object cannot hold both, so such members are meaningless rather than modelled.
- Template entries that are `null`, and descriptor fields of other types than the model gives them (a non-string `type`, non-number bounds, a non-array `acceptedValues`, a `RegExp` object as `regexFormat`), are not modelled.
- A top-level template that is not an object, where `key in TEMPLATE` would throw, is not modelled; nested templates are objects by construction.
- `Capitalize` upper-cases ASCII letters only; the full Unicode case mapping of `toUpperCase` is not modelled.
- Symbols, BigInts and functions as option values are not modelled; functions appear only as the methods a template inherits.
- Enumeration order is the order of an object's property list; JavaScript's integer-key-first ordering is not modelled.
