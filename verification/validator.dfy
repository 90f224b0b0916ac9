/** The traversal `OptionsValidator.ValidateOptions` (package.js:15-38) and
    the class around it: the eager constructor and `ToObject`
    (package.js:5-13). */
module Validator {
  import opened Outcomes
  import opened JsValues
  import opened Templates
  import opened Rules

  /** `ValidateOptions(OPTIONS, TEMPLATE)`. Only a non-array object is
      walked; `null` is walked too, but `for...in` over it visits nothing. */
  function ValidateOptions(x: Externals, options: Value, template: Template): (r: Outcome<Error>)
    decreases options, 0
    ensures !options.Obj? ==> r == Pass
    ensures r.Fail? && KeyOf(r.error).Some? ==>
      exists i :: 0 <= i < |options.props| && options.props[i].key == KeyOf(r.error).value
  {
    if options.Obj? then ValidateKeys(x, options.props, template) else Pass
  }

  /** What the body of the `for...in` loop does with one key: go on to the
      next key (`continue`, or the end of the body), or leave the loop with
      an outcome (a `throw`, or the `return` of package.js:29). */
  datatype Step = Next | Stop(outcome: Outcome<Error>)

  /** The body of the loop of package.js:20-37 for the property `key: v`.
      A key the template lacks is skipped; otherwise the type check runs,
      a non-object entry ends the work for that key, and an object entry
      either returns the recursive validation of the value or runs the
      constraint chain. */
  function ValidateKey(x: Externals, key: string, v: Value, template: Template): (s: Step)
    ensures Lookup(template, key).None? ==> s == Next
    ensures s.Stop? && s.outcome.Fail? && KeyOf(s.outcome.error).Some? ==> KeyOf(s.outcome.error).value == key
    decreases v, 1
  {
    match Lookup(template, key)
    case None => Next
    case Some(e) =>
      var typed := ValidateType(key, v, e);
      if typed.Fail? then Stop(typed)
      else if !e.Object? then Next
      else match x.isOptionsObject(key)
        case None => Stop(Fail(JsTypeError))
        case Some(false) => Stop(ValidateOptions(x, v, e.t))
        case Some(true) =>
          var rules := ConstraintChain(x, key, e.t, v);
          if rules.Fail? then Stop(rules) else Next
  }

  /** The `for...in` loop of package.js:20-37 over the remaining properties. */
  function ValidateKeys(x: Externals, props: seq<Prop>, template: Template): (r: Outcome<Error>)
    ensures r.Fail? ==> exists i :: 0 <= i < |props| && Lookup(template, props[i].key).Some?
    ensures r.Fail? && KeyOf(r.error).Some? ==>
      exists i :: 0 <= i < |props| && props[i].key == KeyOf(r.error).value
    decreases props, 2
  {
    if props == [] then Pass
    else match ValidateKey(x, props[0].key, props[0].val, template)
      case Next => ValidateKeys(x, props[1..], template)
      case Stop(outcome) => outcome
  }

  /** An `OptionsValidator` instance: the template and the options it was
      constructed with. */
  datatype OptionsValidator = OptionsValidator(template: Template, options: Value)

  /** `new OptionsValidator(template, options)`: stores both, then validates
      eagerly; a failed validation means no instance is produced. */
  function Construct(x: Externals, template: Template, options: Value): (r: Result<OptionsValidator, Error>)
    ensures r.Success? <==> ValidateOptions(x, options, template).Pass?
    ensures r.Success? ==> r.value.options == options && r.value.template == template
    ensures r.Failure? ==> Fail(r.error) == ValidateOptions(x, options, template)
  {
    var instance := OptionsValidator(template, options);
    var outcome := ValidateOptions(x, instance.options, instance.template);
    if outcome.Fail? then Failure(outcome.error) else Success(instance)
  }

  /** `ToObject()`: the stored options, as they were given. */
  function ToObject(instance: OptionsValidator): (r: Value)
    ensures r == instance.options
  {
    instance.options
  }
}
