/** The per-key checks of `OptionsValidator` (package.js:40-131): the type
    check and the six constraint rules, each a pure function from the key,
    the template entry and the option value to an outcome. */
module Rules {
  import opened Outcomes
  import opened JsValues
  import opened Templates

  /** What validation can throw. The first eight are the validator's own
      exceptions, one per message template, carrying the values the message
      shows; the last two are errors the JavaScript runtime raises. */
  datatype Error =
      /** "Value of 'key' was expected to be of type 'Expected'." */
    | TypeMismatch(key: string, expected: string)
      /** "Template option 'type' cannot be 'undefined'." */
    | TypeUndefined
      /** "Value of 'key' cannot be <shown> or less." */
    | ValueTooSmall(key: string, shown: int)
      /** "Value of 'key' cannot be <shown> or more." */
    | ValueTooLarge(key: string, shown: int)
      /** "Length of 'key' cannot be <shown> or less."; `None` prints as NaN. */
    | LengthTooSmall(key: string, shownOrNaN: Option<int>)
      /** "Length of 'key' cannot be <shown> or more." */
    | LengthTooLarge(key: string, shown: int)
      /** "Value 'value' is not a valid option for 'key'. Valid options are: a, b." */
    | NotAccepted(value: Value, key: string, accepted: seq<Value>)
      /** "Value of 'key' does not match expected format." */
    | FormatMismatch(key: string)
      /** A TypeError from the runtime (a property of undefined, a missing method). */
    | JsTypeError
      /** A SyntaxError from the `RegExp` constructor. */
    | JsSyntaxError

  /** The option key an error message names, if it names one. */
  function KeyOf(e: Error): Option<string>
  {
    match e
    case TypeMismatch(key, _) => Some(key)
    case ValueTooSmall(key, _) => Some(key)
    case ValueTooLarge(key, _) => Some(key)
    case LengthTooSmall(key, _) => Some(key)
    case LengthTooLarge(key, _) => Some(key)
    case NotAccepted(_, key, _) => Some(key)
    case FormatMismatch(key) => Some(key)
    case _ => None
  }

  /** Behaviour package.js delegates to code this model does not contain.
      `isOptionsObject` stands for `OptionsValidator.ObjectIsOptionsObject`,
      which the class calls but never defines: `None` is the call throwing
      (as the shipped class does), `Some(b)` a definition returning `b`.
      `regexTest(p, v)` is `new RegExp(p).test(v)`: `None` when the pattern
      does not compile. */
  datatype Externals = Externals(
    isOptionsObject: string -> Option<bool>,
    regexTest: (string, Value) -> Option<bool>)

  /** The error thrown when a bare entry `tag` does not match: its message
      evaluates `tag[0].toUpperCase()`, which throws unless `tag` is a
      non-empty string. */
  function TagMismatch(key: string, tag: Primitive): (r: Error)
    ensures r.TypeMismatch? <==> tag.Str? && |tag.s| > 0
    ensures r.TypeMismatch? ==> r == TypeMismatch(key, Capitalize(tag.s))
    ensures !r.TypeMismatch? ==> r == JsTypeError
  {
    if tag.Str? && |tag.s| > 0 then TypeMismatch(key, Capitalize(tag.s)) else JsTypeError
  }

  /** `ValidateType` (package.js:40-60). A non-object entry must equal the
      `typeof` of the value; a function entry never does. An object entry
      needs a `type` field, and that field must equal the value itself;
      on a mismatch the message indexes the template object as if it were
      a string, `TEMPLATE[key][0]` is undefined and the runtime throws. */
  function ValidateType(key: string, v: Value, e: Entry): (r: Outcome<Error>)
    ensures e.Prim? ==> (r.Pass? <==> e.p == Str(TypeOf(v)))
    ensures e.Builtin? ==> r == Fail(JsTypeError)
    ensures e.Object? && e.t.typeName.None? ==> r == Fail(TypeUndefined)
    ensures e.Object? && e.t.typeName.Some? ==>
      r == (if v == Str(e.t.typeName.value) then Pass else Fail(JsTypeError))
    ensures r.Fail? && e.Prim? ==> r.error == TagMismatch(key, e.p)
  {
    match e
    case Prim(tag) =>
      if StrictEquals(tag, Str(TypeOf(v))) then Pass else Fail(TagMismatch(key, tag))
    case Builtin(_) =>
      Fail(JsTypeError)
    case Object(t) =>
      if t.typeName.None? then Fail(TypeUndefined)
      else if StrictEquals(Str(t.typeName.value), v) then Pass
      else Fail(JsTypeError)
  }

  /** `ValidateMinValue` (package.js:62-71). */
  function MinValueRule(key: string, t: Template, v: Value): (r: Outcome<Error>)
    ensures t.minValue.None? ==> r == Pass
    ensures t.minValue.Some? && v.Num? ==> (r.Pass? <==> t.minValue.value <= v.n)
    ensures r.Fail? ==> r.error == ValueTooSmall(key, t.minValue.value - 1)
  {
    if t.minValue.None? then Pass
    else if BoundAtMost(t.minValue.value, v) then Pass
    else Fail(ValueTooSmall(key, t.minValue.value - 1))
  }

  /** `ValidateMaxValue` (package.js:73-82). */
  function MaxValueRule(key: string, t: Template, v: Value): (r: Outcome<Error>)
    ensures t.maxValue.None? ==> r == Pass
    ensures t.maxValue.Some? && v.Num? ==> (r.Pass? <==> v.n <= t.maxValue.value)
    ensures r.Fail? ==> r.error == ValueTooLarge(key, t.maxValue.value + 1)
  {
    if t.maxValue.None? then Pass
    else if BoundAtLeast(t.maxValue.value, v) then Pass
    else Fail(ValueTooLarge(key, t.maxValue.value + 1))
  }

  /** `ValidateMinLength` (package.js:84-93). It compares the bound with the
      value itself, not with a length, and its message shows `minValue - 1`. */
  function MinLengthRule(key: string, t: Template, v: Value): (r: Outcome<Error>)
    ensures t.minLength.None? ==> r == Pass
    ensures t.minLength.Some? && v.Num? ==> (r.Pass? <==> t.minLength.value <= v.n)
    ensures r.Fail? ==> r.error.LengthTooSmall? && r.error.key == key
    ensures r.Fail? ==> r.error.shownOrNaN == (if t.minValue.Some? then Some(t.minValue.value - 1) else None)
  {
    if t.minLength.None? then Pass
    else if BoundAtMost(t.minLength.value, v) then Pass
    else Fail(LengthTooSmall(key, if t.minValue.Some? then Some(t.minValue.value - 1) else None))
  }

  /** `ValidateMaxLength` (package.js:95-104). It compares the bound with the
      value itself, not with a length. */
  function MaxLengthRule(key: string, t: Template, v: Value): (r: Outcome<Error>)
    ensures t.maxLength.None? ==> r == Pass
    ensures t.maxLength.Some? && v.Num? ==> (r.Pass? <==> v.n <= t.maxLength.value)
    ensures r.Fail? ==> r.error == LengthTooLarge(key, t.maxLength.value + 1)
  {
    if t.maxLength.None? then Pass
    else if BoundAtLeast(t.maxLength.value, v) then Pass
    else Fail(LengthTooLarge(key, t.maxLength.value + 1))
  }

  /** `accepted.includes(v)`. */
  predicate Includes(accepted: seq<Value>, v: Value)
  {
    exists i :: 0 <= i < |accepted| && StrictEquals(accepted[i], v)
  }

  /** `ValidateAcceptedValues` (package.js:106-119). */
  function AcceptedValuesRule(key: string, t: Template, v: Value): (r: Outcome<Error>)
    ensures t.acceptedValues.None? ==> r == Pass
    ensures t.acceptedValues.Some? && !IsReference(v) ==> (r.Pass? <==> v in t.acceptedValues.value)
    ensures r.Fail? ==> r.error == NotAccepted(v, key, t.acceptedValues.value)
  {
    if t.acceptedValues.None? then Pass
    else if Includes(t.acceptedValues.value, v) then Pass
    else Fail(NotAccepted(v, key, t.acceptedValues.value))
  }

  /** `ValidateRegexFormat` (package.js:121-131). */
  function RegexFormatRule(x: Externals, key: string, t: Template, v: Value): (r: Outcome<Error>)
    ensures t.regexFormat.None? ==> r == Pass
    ensures r.Fail? ==> r.error in {FormatMismatch(key), JsSyntaxError}
    ensures t.regexFormat.Some? ==>
      (r.Pass? <==> x.regexTest(t.regexFormat.value, v) == Some(true))
  {
    if t.regexFormat.None? then Pass
    else match x.regexTest(t.regexFormat.value, v)
      case None => Fail(JsSyntaxError)
      case Some(true) => Pass
      case Some(false) => Fail(FormatMismatch(key))
  }

  /** The six constraint rules of a descriptor, in the order package.js:31-36
      calls them. */
  function RuleOutcomes(x: Externals, key: string, t: Template, v: Value): (rs: seq<Outcome<Error>>)
    ensures |rs| == 6
  {
    [MinValueRule(key, t, v), MaxValueRule(key, t, v),
     MinLengthRule(key, t, v), MaxLengthRule(key, t, v),
     AcceptedValuesRule(key, t, v), RegexFormatRule(x, key, t, v)]
  }

  /** The calls of package.js:31-36 as written: each rule runs only if the
      previous ones returned, and the first throw ends the sequence. It is
      the first failure of the rules in the order listed by `RuleOutcomes`. */
  function ConstraintChain(x: Externals, key: string, t: Template, v: Value): (r: Outcome<Error>)
    ensures r == FirstFailure(RuleOutcomes(x, key, t, v))
  {
    FirstFailureOfSix(RuleOutcomes(x, key, t, v));
    MinValueRule(key, t, v)
      .Then(MaxValueRule(key, t, v))
      .Then(MinLengthRule(key, t, v))
      .Then(MaxLengthRule(key, t, v))
      .Then(AcceptedValuesRule(key, t, v))
      .Then(RegexFormatRule(x, key, t, v))
  }

  /** Reference meaning of a fail-fast sequence of checks: the first failure
      in the list, or `Pass` if there is none. */
  function FirstFailure(rs: seq<Outcome<Error>>): (r: Outcome<Error>)
  {
    if rs == [] then Pass
    else if rs[0].Fail? then rs[0]
    else FirstFailure(rs[1..])
  }

  /** One unfolding of `FirstFailure` on a suffix. */
  lemma FirstFailureStep(rs: seq<Outcome<Error>>, k: nat)
    requires k < |rs|
    ensures FirstFailure(rs[k..]) == rs[k].Then(FirstFailure(rs[k + 1..]))
  {
    assert rs[k..][1..] == rs[k + 1..];
  }

  /** The first failure of six checks, unfolded into the chain of `Then`s
      that package.js:31-36 writes out. */
  lemma FirstFailureOfSix(rs: seq<Outcome<Error>>)
    requires |rs| == 6
    ensures FirstFailure(rs) == rs[0].Then(rs[1]).Then(rs[2]).Then(rs[3]).Then(rs[4]).Then(rs[5])
  {
    FirstFailureStep(rs, 0);
    FirstFailureStep(rs, 1);
    FirstFailureStep(rs, 2);
    FirstFailureStep(rs, 3);
    FirstFailureStep(rs, 4);
    FirstFailureStep(rs, 5);
    assert rs[6..] == [];
    assert rs[0..] == rs;
  }
}
