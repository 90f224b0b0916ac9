/** What the validator guarantees, stated over the model of package.js. */
module Properties {
  import opened Outcomes
  import opened JsValues
  import opened Templates
  import opened Rules
  import opened Validator

  // ---------------------------------------------------------------------
  // The constraint chain is fail-fast (package.js:31-36)
  // ---------------------------------------------------------------------

  /** The first failure of a list is a failure of the list preceded only by
      passes, and there is none exactly when every check passes. */
  lemma {:induction false} FirstFailureMeaning(rs: seq<Outcome<Error>>)
    ensures FirstFailure(rs).Pass? <==> forall i :: 0 <= i < |rs| ==> rs[i].Pass?
    ensures FirstFailure(rs).Fail? ==>
      exists i :: 0 <= i < |rs| && rs[i] == FirstFailure(rs) && forall j :: 0 <= j < i ==> rs[j].Pass?
  {
    if rs != [] && rs[0].Pass? {
      FirstFailureMeaning(rs[1..]);
      assert forall i :: 1 <= i < |rs| ==> rs[i] == rs[1..][i - 1];
      if FirstFailure(rs).Fail? {
        var k :| 0 <= k < |rs[1..]| && rs[1..][k] == FirstFailure(rs[1..])
                 && forall j :: 0 <= j < k ==> rs[1..][j].Pass?;
        assert rs[k + 1] == FirstFailure(rs);
        assert forall j :: 0 <= j < k + 1 ==> rs[j].Pass? by {
          forall j | 0 <= j < k + 1 ensures rs[j].Pass? {
            if j > 0 { assert rs[j] == rs[1..][j - 1]; }
          }
        }
      }
    }
  }

  /** The chain passes exactly when every declared rule passes, and when it
      fails its error is that of some rule all of whose predecessors passed. */
  lemma ChainFailFast(x: Externals, key: string, t: Template, v: Value)
    ensures ConstraintChain(x, key, t, v).Pass? <==>
      && MinValueRule(key, t, v).Pass? && MaxValueRule(key, t, v).Pass?
      && MinLengthRule(key, t, v).Pass? && MaxLengthRule(key, t, v).Pass?
      && AcceptedValuesRule(key, t, v).Pass? && RegexFormatRule(x, key, t, v).Pass?
    ensures ConstraintChain(x, key, t, v).Fail? ==>
      exists i :: 0 <= i < 6 && RuleOutcomes(x, key, t, v)[i] == ConstraintChain(x, key, t, v)
        && forall j :: 0 <= j < i ==> RuleOutcomes(x, key, t, v)[j].Pass?
  {
    FirstFailureMeaning(RuleOutcomes(x, key, t, v));
  }

  // ---------------------------------------------------------------------
  // Bounds (package.js:62-104) and accepted values (package.js:106-119)
  // ---------------------------------------------------------------------

  /** minValue is inclusive, and its message names the largest rejected
      number: the number shown fails and the next one passes. */
  lemma MinValueBoundary(key: string, t: Template, v: Value)
    requires t.minValue.Some?
    ensures MinValueRule(key, t, Num(t.minValue.value)) == Pass
    ensures MinValueRule(key, t, v).Fail? ==>
      var shown := MinValueRule(key, t, v).error.shown;
      MinValueRule(key, t, Num(shown)).Fail? && MinValueRule(key, t, Num(shown + 1)).Pass?
  {
  }

  /** maxValue is inclusive, and its message names the smallest rejected
      number: the number shown fails and the previous one passes. */
  lemma MaxValueBoundary(key: string, t: Template, v: Value)
    requires t.maxValue.Some?
    ensures MaxValueRule(key, t, Num(t.maxValue.value)) == Pass
    ensures MaxValueRule(key, t, v).Fail? ==>
      var shown := MaxValueRule(key, t, v).error.shown;
      MaxValueRule(key, t, Num(shown)).Fail? && MaxValueRule(key, t, Num(shown - 1)).Pass?
  {
  }

  /** maxLength is inclusive on numbers, and its message names the smallest
      rejected number: the number shown fails and the previous one passes. */
  lemma MaxLengthBoundary(key: string, t: Template, v: Value)
    requires t.maxLength.Some?
    ensures MaxLengthRule(key, t, Num(t.maxLength.value)) == Pass
    ensures MaxLengthRule(key, t, v).Fail? ==>
      var shown := MaxLengthRule(key, t, v).error.shown;
      MaxLengthRule(key, t, Num(shown)).Fail? && MaxLengthRule(key, t, Num(shown - 1)).Pass?
  {
  }

  /** Only membership counts, not the position in the list: appending the
      value to the list makes a primitive pass, a value that passes keeps
      passing when the list grows at either end, and no list at all lets an
      array or object through. */
  lemma AcceptedValuesMembership(key: string, t: Template, v: Value, before: seq<Value>, after: seq<Value>)
    requires t.acceptedValues.Some?
    ensures !IsReference(v) ==>
      AcceptedValuesRule(key, t.(acceptedValues := Some(t.acceptedValues.value + [v])), v) == Pass
    ensures AcceptedValuesRule(key, t, v).Pass? ==>
      AcceptedValuesRule(key, t.(acceptedValues := Some(before + t.acceptedValues.value + after)), v).Pass?
    ensures IsReference(v) ==>
      AcceptedValuesRule(key, t.(acceptedValues := Some(before)), v) == Fail(NotAccepted(v, key, before))
  {
    var list := t.acceptedValues.value;
    if AcceptedValuesRule(key, t, v).Pass? {
      var i :| 0 <= i < |list| && StrictEquals(list[i], v);
      assert (before + list + after)[|before| + i] == list[i];
    }
    if !IsReference(v) {
      assert (list + [v])[|list|] == v;
    }
  }

  // ---------------------------------------------------------------------
  // The traversal (package.js:15-38)
  // ---------------------------------------------------------------------

  /** A key the template does not have (not even by inheritance) changes
      nothing, wherever it sits among the options' keys. */
  lemma {:induction false} UnknownKeyIgnored(x: Externals, pre: seq<Prop>, p: Prop, post: seq<Prop>, t: Template)
    requires Lookup(t, p.key).None?
    ensures ValidateKeys(x, pre + [p] + post, t) == ValidateKeys(x, pre + post, t)
  {
    if pre == [] {
      assert pre + [p] + post == [p] + post;
      assert ([p] + post)[1..] == post;
      assert pre + post == post;
    } else {
      assert (pre + [p] + post)[0] == pre[0] == (pre + post)[0];
      assert (pre + [p] + post)[1..] == pre[1..] + [p] + post;
      assert (pre + post)[1..] == pre[1..] + post;
      UnknownKeyIgnored(x, pre[1..], p, post, t);
    }
  }

  /** Options none of whose keys the template has always pass. */
  lemma {:induction false} UnknownKeysPass(x: Externals, props: seq<Prop>, t: Template)
    requires forall i :: 0 <= i < |props| ==> Lookup(t, props[i].key).None?
    ensures ValidateKeys(x, props, t) == Pass
  {
    if props != [] {
      UnknownKeysPass(x, props[1..], t);
    }
  }

  /** The loop body lets the walk go on past `key: v`: the template lacks
      the key, or its entry is a bare tag the value's `typeof` matches, or it
      is a descriptor the value satisfies in every rule. */
  predicate KeyClears(x: Externals, key: string, v: Value, t: Template)
  {
    match Lookup(t, key)
    case None => true
    case Some(e) =>
      && ValidateType(key, v, e).Pass?
      && (e.Object? ==>
            && x.isOptionsObject(key) == Some(true)
            && forall i :: 0 <= i < 6 ==> RuleOutcomes(x, key, e.t, v)[i].Pass?)
  }

  /** The loop body moves on to the next key exactly when the key clears. */
  lemma NextIffClears(x: Externals, key: string, v: Value, t: Template)
    ensures ValidateKey(x, key, v, t) == Next <==> KeyClears(x, key, v, t)
  {
    match Lookup(t, key)
    case None =>
    case Some(e) =>
      if e.Object? {
        FirstFailureMeaning(RuleOutcomes(x, key, e.t, v));
      }
  }

  /** The whole walk: it passes exactly when every key it reaches (every key
      all of whose predecessors moved on) moves on or ends the walk with a
      pass, and a failure is the error of the first key that does not move
      on. In particular, options all of whose keys move on pass. */
  lemma {:induction false} WalkOutcome(x: Externals, props: seq<Prop>, t: Template)
    ensures ValidateKeys(x, props, t) == Pass <==>
      forall i :: 0 <= i < |props| && (forall j :: 0 <= j < i ==> ValidateKey(x, props[j].key, props[j].val, t) == Next) ==>
        ValidateKey(x, props[i].key, props[i].val, t) in {Next, Stop(Pass)}
    ensures ValidateKeys(x, props, t).Fail? ==>
      exists i :: 0 <= i < |props| && ValidateKey(x, props[i].key, props[i].val, t) == Stop(ValidateKeys(x, props, t))
        && forall j :: 0 <= j < i ==> ValidateKey(x, props[j].key, props[j].val, t) == Next
  {
    if props != [] {
      WalkOutcome(x, props[1..], t);
      assert forall i :: 1 <= i < |props| ==> props[i] == props[1..][i - 1];
      if ValidateKey(x, props[0].key, props[0].val, t) == Next {
        if ValidateKeys(x, props, t).Fail? {
          var k :| 0 <= k < |props[1..]|
                   && ValidateKey(x, props[1..][k].key, props[1..][k].val, t) == Stop(ValidateKeys(x, props, t))
                   && forall j :: 0 <= j < k ==> ValidateKey(x, props[1..][j].key, props[1..][j].val, t) == Next;
          assert ValidateKey(x, props[k + 1].key, props[k + 1].val, t) == Stop(ValidateKeys(x, props, t));
          forall j | 0 <= j < k + 1
            ensures ValidateKey(x, props[j].key, props[j].val, t) == Next
          {
            if j > 0 { assert props[j] == props[1..][j - 1]; }
          }
        }
      }
    }
  }

  /** Options all of whose keys clear pass the walk. */
  lemma AllKeysClearPass(x: Externals, props: seq<Prop>, t: Template)
    requires forall i :: 0 <= i < |props| ==> KeyClears(x, props[i].key, props[i].val, t)
    ensures ValidateKeys(x, props, t) == Pass
  {
    forall i | 0 <= i < |props|
      ensures ValidateKey(x, props[i].key, props[i].val, t) == Next
    {
      NextIffClears(x, props[i].key, props[i].val, t);
    }
    WalkOutcome(x, props, t);
  }

  /** `t` with one more own property. */
  function WithMember(t: Template, m: Member): (r: Template)
    ensures r.others == [m] + t.others
  {
    t.(others := [m] + t.others)
  }

  /** A template key that no option uses has no effect on the outcome. */
  lemma {:induction false} UnusedTemplateKeyIgnored(x: Externals, props: seq<Prop>, t: Template, m: Member)
    requires m.key !in DescriptorFields
    requires forall i :: 0 <= i < |props| ==> props[i].key != m.key
    ensures ValidateKeys(x, props, WithMember(t, m)) == ValidateKeys(x, props, t)
  {
    if props != [] {
      LookupWithMember(t, m, props[0].key);
      assert ValidateKey(x, props[0].key, props[0].val, WithMember(t, m))
          == ValidateKey(x, props[0].key, props[0].val, t);
      UnusedTemplateKeyIgnored(x, props[1..], t, m);
    }
  }

  /** A new own property does not change the lookup of any other key. */
  lemma LookupWithMember(t: Template, m: Member, key: string)
    requires m.key !in DescriptorFields && key != m.key
    ensures Lookup(WithMember(t, m), key) == Lookup(t, key)
  {
    assert ([m] + t.others)[1..] == t.others;
  }

  /** A key named after a method of `Object.prototype` is found by `in` in
      every template that does not define it; its entry is a function, so
      the type check throws, whatever the value. */
  lemma InheritedKeyThrows(x: Externals, p: Prop, rest: seq<Prop>, t: Template)
    requires p.key in InheritedMethods
    requires FindOwn(t.others, p.key).None?
    ensures ValidateKeys(x, [p] + rest, t) == Fail(JsTypeError)
  {
    assert p.key !in DescriptorFields;
  }

  /** A bare entry checks only the type: it fails exactly when `typeof`
      of the value differs from the tag, with an error naming the key and
      the capitalised tag (a runtime TypeError for an empty tag), and on a
      match the walk moves straight on to the next key. */
  lemma BareTagEntry(x: Externals, p: Prop, rest: seq<Prop>, t: Template, tag: string)
    requires Lookup(t, p.key) == Some(Prim(Str(tag)))
    ensures tag == TypeOf(p.val) ==> ValidateKeys(x, [p] + rest, t) == ValidateKeys(x, rest, t)
    ensures tag != TypeOf(p.val) && |tag| > 0 ==>
      ValidateKeys(x, [p] + rest, t) == Fail(TypeMismatch(p.key, Capitalize(tag)))
    ensures tag != TypeOf(p.val) && tag == "" ==> ValidateKeys(x, [p] + rest, t) == Fail(JsTypeError)
  {
    assert ([p] + rest)[1..] == rest;
  }

  /** An object entry without `type` always throws the template error, before
      any constraint is looked at. */
  lemma DescriptorWithoutType(x: Externals, p: Prop, rest: seq<Prop>, t: Template, d: Template)
    requires Lookup(t, p.key) == Some(Object(d))
    requires d.typeName.None?
    ensures ValidateKeys(x, [p] + rest, t) == Fail(TypeUndefined)
  {
  }

  /** A descriptor (an object entry the helper classifies as one): the value
      must be the string `type` itself, then the constraint chain decides,
      and only then does the walk go on. Success therefore means every
      declared rule passed. */
  lemma DescriptorEntry(x: Externals, p: Prop, rest: seq<Prop>, t: Template, d: Template)
    requires Lookup(t, p.key) == Some(Object(d))
    requires d.typeName.Some?
    requires x.isOptionsObject(p.key) == Some(true)
    ensures ValidateKeys(x, [p] + rest, t) ==
      if p.val != Str(d.typeName.value) then Fail(JsTypeError)
      else if ConstraintChain(x, p.key, d, p.val).Fail? then ConstraintChain(x, p.key, d, p.val)
      else ValidateKeys(x, rest, t)
    ensures ValidateKeys(x, [p] + rest, t).Pass? ==>
      forall i :: 0 <= i < 6 ==> RuleOutcomes(x, p.key, d, p.val)[i].Pass?
  {
    assert ([p] + rest)[1..] == rest;
    ChainFailFast(x, p.key, d, p.val);
  }

  /** Construction succeeds exactly when validation passes, and `ToObject`
      then gives back the very options passed in. */
  lemma ConstructThenToObject(x: Externals, t: Template, options: Value)
    ensures Construct(x, t, options).Success? ==> ToObject(Construct(x, t, options).value) == options
    ensures Construct(x, t, options).Success? <==> ValidateOptions(x, options, t) == Pass
  {
  }
}
