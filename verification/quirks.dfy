/** Behaviour package.js has as written that its messages and names do not
    suggest, stated as lemmas about the model, with concrete instances. */
module Quirks {
  import opened Outcomes
  import opened JsValues
  import opened Templates
  import opened Rules
  import opened Validator

  /** The descriptor `{ type: "number", minValue: 1, maxValue: 65535 }`. */
  const PortDescriptor := EmptyTemplate.(typeName := Some("number"), minValue := Some(1), maxValue := Some(65535))

  /** `{ port: PortDescriptor }`. */
  const PortTemplate := EmptyTemplate.(others := [Member("port", Object(PortDescriptor))])

  /** The nested template `{ type: "object", host: "string" }`. */
  const DbTemplate := Template(Some("object"), None, None, None, None, None, None,
                               [Member("host", Prim(Str("string")))])

  /** `{ db: DbTemplate, port: "number" }`. */
  const ServiceTemplate := EmptyTemplate.(others := [Member("db", Object(DbTemplate)),
                                                     Member("port", Prim(Str("number")))])

  /** The descriptor type check compares `type` with the value itself, not
      with its `typeof`, and its mismatch message indexes the template object
      as a string, so it never produces the validator's own type error. */
  lemma DescriptorTypeComparesValue(key: string, v: Value, d: Template)
    requires d.typeName.Some?
    ensures ValidateType(key, v, Object(d)).Pass? <==> v == Str(d.typeName.value)
    ensures ValidateType(key, v, Object(d)).Fail? ==> ValidateType(key, v, Object(d)) == Fail(JsTypeError)
  {
  }

  /** So the port template rejects the port number 70000 with a runtime
      TypeError, not with the maxValue message, and even rejects 8080. */
  lemma PortNumberRejected(x: Externals)
    ensures ValidateOptions(x, Obj([Prop("port", Num(70000))]), PortTemplate) == Fail(JsTypeError)
    ensures ValidateOptions(x, Obj([Prop("port", Num(8080))]), PortTemplate) == Fail(JsTypeError)
  {
    assert Lookup(PortTemplate, "port") == Some(Object(PortDescriptor));
  }

  /** The only value the port descriptor lets through its type check is the
      string "number", which then fails the minValue rule (a non-numeric
      string compares as NaN). */
  lemma PortStringReachesRules(x: Externals)
    requires x.isOptionsObject("port") == Some(true)
    ensures ValidateOptions(x, Obj([Prop("port", Str("number"))]), PortTemplate) == Fail(ValueTooSmall("port", 0))
  {
    assert Lookup(PortTemplate, "port") == Some(Object(PortDescriptor));
  }

  /** `ObjectIsOptionsObject` does not exist in the class, so as shipped
      every object entry whose type check passes ends in a TypeError. */
  lemma MissingHelperThrows(x: Externals, p: Prop, rest: seq<Prop>, t: Template, d: Template)
    requires Lookup(t, p.key) == Some(Object(d))
    requires p.val.Str? && d.typeName == Some(p.val.s)
    requires x.isOptionsObject(p.key).None?
    ensures ValidateKeys(x, [p] + rest, t) == Fail(JsTypeError)
  {
  }

  /** A nested entry ends the whole walk: the recursion's outcome is returned
      and the keys after it are never examined. Since the type check only
      lets through the string `type`, the recursion is handed a string and
      passes at once, so nothing inside a nested template is ever checked. */
  lemma NestedEntryEndsWalk(x: Externals, p: Prop, rest: seq<Prop>, t: Template, d: Template)
    requires Lookup(t, p.key) == Some(Object(d))
    requires d.typeName.Some?
    requires x.isOptionsObject(p.key) == Some(false)
    ensures ValidateKeys(x, [p] + rest, t) == if p.val == Str(d.typeName.value) then Pass else Fail(JsTypeError)
  {
  }

  /** With the nested `db` entry first, a wrong `port` after it goes
      unnoticed; on its own the same `port` is rejected. */
  lemma NestedKeyMasksLaterSibling(x: Externals)
    requires x.isOptionsObject("db") == Some(false)
    ensures ValidateOptions(x, Obj([Prop("db", Str("object")), Prop("port", Str("80"))]), ServiceTemplate) == Pass
    ensures ValidateOptions(x, Obj([Prop("port", Str("80"))]), ServiceTemplate) == Fail(TypeMismatch("port", "Number"))
  {
    assert Lookup(ServiceTemplate, "db") == Some(Object(DbTemplate));
    assert ServiceTemplate.others[1..] == [Member("port", Prim(Str("number")))];
    assert FindOwn(ServiceTemplate.others, "port") == Some(Prim(Str("number")));
    assert Lookup(ServiceTemplate, "port") == Some(Prim(Str("number")));
    assert [Prop("db", Str("object")), Prop("port", Str("80"))][1..] == [Prop("port", Str("80"))];
    assert Capitalize("number") == "Number" by {
      assert UpperChar('n') == 'N';
      assert "number"[1..] == "umber";
    }
  }

  /** A nested configuration object is rejected by the type check before any
      recursion: `"object" !== { host: ... }`. */
  lemma NestedObjectRejected(x: Externals)
    ensures ValidateOptions(x, Obj([Prop("db", Obj([Prop("host", Str("localhost"))]))]), ServiceTemplate)
            == Fail(JsTypeError)
  {
    assert Lookup(ServiceTemplate, "db") == Some(Object(DbTemplate));
  }

  /** minLength and maxLength compare the bound with the value, not with its
      length: a number is measured as itself and a string of the right
      length is rejected. */
  lemma LengthRulesCompareValue(key: string, n: int)
    ensures var t := EmptyTemplate.(minLength := Some(3));
      MinLengthRule(key, t, Num(5)) == Pass && MinLengthRule(key, t, Str("hello")).Fail?
    ensures var t := EmptyTemplate.(maxLength := Some(3));
      MaxLengthRule(key, t, Num(2)) == Pass && MaxLengthRule(key, t, Str("ab")) == Fail(LengthTooLarge(key, 4))
    ensures var t := EmptyTemplate.(minLength := Some(n));
      MinLengthRule(key, t, Num(n)) == Pass && MinLengthRule(key, t, Num(n - 1)).Fail?
  {
  }

  /** The minLength message shows `minValue - 1`, whatever minLength is: NaN
      when minValue is not declared. */
  lemma MinLengthMessageShowsMinValue(key: string, v: Value, t: Template)
    requires MinLengthRule(key, t, v).Fail?
    ensures t.minValue.None? ==> MinLengthRule(key, t, v) == Fail(LengthTooSmall(key, None))
    ensures t.minValue.Some? ==> MinLengthRule(key, t, v) == Fail(LengthTooSmall(key, Some(t.minValue.value - 1)))
    ensures t.minValue.None? || t.minValue.value != t.minLength.value ==>
      MinLengthRule(key, t, v) != Fail(LengthTooSmall(key, Some(t.minLength.value - 1)))
  {
  }

  /** An option named `constructor` is not an unknown key: `in` finds the
      inherited method in the empty template and validation throws. */
  lemma ConstructorKeyThrows(x: Externals)
    ensures ValidateOptions(x, Obj([Prop("constructor", Num(1))]), EmptyTemplate) == Fail(JsTypeError)
  {
    assert "constructor" in InheritedMethods;
  }

  /** An empty type name cannot be matched and cannot be capitalised either. */
  lemma EmptyTagThrows(x: Externals, v: Value)
    ensures var t := EmptyTemplate.(others := [Member("a", Prim(Str("")))]);
      ValidateOptions(x, Obj([Prop("a", v)]), t) == Fail(JsTypeError)
  {
    var t := EmptyTemplate.(others := [Member("a", Prim(Str("")))]);
    assert Lookup(t, "a") == Some(Prim(Str("")));
    assert ValidateKey(x, "a", v, t) == Stop(Fail(JsTypeError));
  }

  /** `{ name: "string" }` accepts `{ name: "server-1" }`, and the instance
      gives the options back. */
  lemma NameScenario(x: Externals)
    ensures var t := EmptyTemplate.(others := [Member("name", Prim(Str("string")))]);
      var options := Obj([Prop("name", Str("server-1"))]);
      Construct(x, t, options) == Success(OptionsValidator(t, options))
  {
    var t := EmptyTemplate.(others := [Member("name", Prim(Str("string")))]);
    assert Lookup(t, "name") == Some(Prim(Str("string")));
    assert [Prop("name", Str("server-1"))][1..] == [];
    assert ValidateKeys(x, [Prop("name", Str("server-1"))], t) == Pass;
  }
}
