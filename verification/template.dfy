/** Templates: the JavaScript objects that describe the expected options.
    A template object plays two roles in package.js. Looked at as a
    constraint descriptor it is read through the fields `type`, `minValue`,
    `maxValue`, `minLength`, `maxLength`, `acceptedValues` and `regexFormat`;
    looked at as a (nested) template its properties, those fields included,
    are the keys that options are matched against. One datatype serves both. */
module Templates {
  import opened Outcomes
  import opened JsValues

  /** A template object. The descriptor fields are typed; every other own
      property is listed in `others`. Entries of `others` named like a
      descriptor field are shadowed by the typed field and never read. */
  datatype Template = Template(
    typeName: Option<string>,
    minValue: Option<int>,
    maxValue: Option<int>,
    minLength: Option<int>,
    maxLength: Option<int>,
    acceptedValues: Option<seq<Value>>,
    regexFormat: Option<string>,
    others: seq<Member>)

  /** What `TEMPLATE[key]` holds once `key in TEMPLATE` is known. */
  datatype Entry =
      /** A value `typeof` does not call "object": normally a type name. */
    | Prim(p: Primitive)
      /** A method inherited from `Object.prototype`; `typeof` says "function". */
    | Builtin(name: string)
      /** A (non-null) object: a constraint descriptor or a nested template.
          An array behaves as an object without a `type` field. */
    | Object(t: Template)

  datatype Member = Member(key: string, entry: Entry)

  /** A template object with no own properties. */
  const EmptyTemplate := Template(None, None, None, None, None, None, None, [])

  /** The descriptor fields, which are read from the typed fields. */
  const DescriptorFields: set<string> :=
    {"type", "minValue", "maxValue", "minLength", "maxLength", "acceptedValues", "regexFormat"}

  /** The methods every object inherits from `Object.prototype`, which the
      `in` operator finds in any template. */
  const InheritedMethods: set<string> :=
    {"constructor", "hasOwnProperty", "isPrototypeOf", "propertyIsEnumerable",
     "toLocaleString", "toString", "valueOf",
     "__defineGetter__", "__defineSetter__", "__lookupGetter__", "__lookupSetter__"}

  /** `__proto__`, also found by `in`: it yields `Object.prototype`, an
      object without a `type` field. */
  const ProtoKey: string := "__proto__"

  /** The first member of `ms` named `key`. */
  function FindOwn(ms: seq<Member>, key: string): (r: Option<Entry>)
    ensures r.Some? <==> exists i :: 0 <= i < |ms| && ms[i].key == key
    ensures r.Some? ==> exists i :: 0 <= i < |ms| && ms[i] == Member(key, r.value)
  {
    if ms == [] then None
    else if ms[0].key == key then Some(ms[0].entry)
    else FindOwn(ms[1..], key)
  }

  /** The own property `key` of `t`, if it has one. */
  function OwnProperty(t: Template, key: string): (r: Option<Entry>)
    ensures key !in DescriptorFields ==> r == FindOwn(t.others, key)
    ensures key == "type" ==> r == (if t.typeName.Some? then Some(Prim(Str(t.typeName.value))) else None)
    ensures key == "minValue" ==> (r.Some? <==> t.minValue.Some?)
    ensures key == "maxValue" ==> (r.Some? <==> t.maxValue.Some?)
    ensures key == "minLength" ==> (r.Some? <==> t.minLength.Some?)
    ensures key == "maxLength" ==> (r.Some? <==> t.maxLength.Some?)
    ensures key == "acceptedValues" ==> (r.Some? <==> t.acceptedValues.Some?)
    ensures key == "regexFormat" ==> (r.Some? <==> t.regexFormat.Some?)
    ensures key in DescriptorFields && r.Some? ==> r.value.Prim? || r.value == Object(EmptyTemplate)
  {
    if key == "type" then
      if t.typeName.Some? then Some(Prim(Str(t.typeName.value))) else None
    else if key == "minValue" then
      if t.minValue.Some? then Some(Prim(Num(t.minValue.value))) else None
    else if key == "maxValue" then
      if t.maxValue.Some? then Some(Prim(Num(t.maxValue.value))) else None
    else if key == "minLength" then
      if t.minLength.Some? then Some(Prim(Num(t.minLength.value))) else None
    else if key == "maxLength" then
      if t.maxLength.Some? then Some(Prim(Num(t.maxLength.value))) else None
    else if key == "acceptedValues" then
      if t.acceptedValues.Some? then Some(Object(EmptyTemplate)) else None
    else if key == "regexFormat" then
      if t.regexFormat.Some? then Some(Prim(Str(t.regexFormat.value))) else None
    else FindOwn(t.others, key)
  }

  /** `key in TEMPLATE ? TEMPLATE[key] : <absent>`: own properties first,
      then those inherited from `Object.prototype`. */
  function Lookup(t: Template, key: string): (r: Option<Entry>)
    ensures OwnProperty(t, key).Some? ==> r == OwnProperty(t, key)
    ensures OwnProperty(t, key).None? && key in InheritedMethods ==> r == Some(Builtin(key))
    ensures r.None? <==> OwnProperty(t, key).None? && key !in InheritedMethods && key != ProtoKey
  {
    var own := OwnProperty(t, key);
    if own.Some? then own
    else if key in InheritedMethods then Some(Builtin(key))
    else if key == ProtoKey then Some(Object(EmptyTemplate))
    else None
  }
}
