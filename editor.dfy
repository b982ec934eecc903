/**
 * The inspector's handling of one callback element (`TestInspector`): pick a
 * game object, look the stored binding up in that object's catalog, let the
 * popup keep or replace it, and write the argument kinds of the chosen method
 * (`DrawArguments`). Layout, the popup widget and the per-field editors are
 * replaced by their answers: the index the popup returns and the payloads
 * already stored.
 */
module Editor {
  import opened Types
  import opened Matcher
  import opened Catalog

  // ---------------------------------------------------------------------------
  // DrawArguments

  /**
   * The argument list after `arraySize` is set to `n`: cut to its first `n`
   * elements, or extended with `filler` (what the serialized array puts in new
   * slots).
   */
  function Resized(args: seq<Argument>, n: nat, filler: Argument): (r: seq<Argument>)
    ensures |r| == n
    ensures forall i :: 0 <= i < n && i < |args| ==> r[i] == args[i]
    ensures forall i :: |args| <= i < n ==> r[i] == filler
  {
    if n <= |args| then args[..n] else args + seq(n - |args|, _ => filler)
  }

  /**
   * The argument at a parameter of type `t` after it is drawn: its kind is set
   * from the parameter's type and an enum's full name is stored in its text; a
   * `TOther` parameter leaves the argument as it was.
   */
  function Written(t: RuntimeType, a: Argument): (r: Argument)
    ensures t.TOther? ==> r == a
    ensures !t.TOther? ==> Accepts(t, r)
    ensures t.TEnum? ==> r.parameterType == Enum && r.stringValue == t.fullName
    ensures !t.TEnum? ==> r.stringValue == a.stringValue
    ensures r.boolValue == a.boolValue && r.intValue == a.intValue
    ensures r.floatValue == a.floatValue && r.objectValue == a.objectValue
  {
    match t
    case TBool => a.(parameterType := Bool)
    case TInt => a.(parameterType := Int)
    case TFloat => a.(parameterType := Float)
    case TString => a.(parameterType := String)
    case TSystemObject => a.(parameterType := Object)
    case TObjectSubclass(_) => a.(parameterType := Object)
    case TEnum(fullName, _, _) => a.(parameterType := Enum, stringValue := fullName)
    case TOther(_) => a
  }

  /** No parameter of `d` has a type the kind assignment skips. */
  predicate AllKindsWritten(d: CallbackDescription)
  {
    forall i :: 0 <= i < |d.parameterTypes| ==> !d.parameterTypes[i].TOther?
  }

  /** Every catalog entry has only classified parameter types, so every kind of it gets written. */
  lemma RepresentableKindsWritten(d: CallbackDescription)
    requires Representable(d)
    ensures AllKindsWritten(d)
  {
    forall i | 0 <= i < |d.parameterTypes|
      ensures !d.parameterTypes[i].TOther?
    {
      assert Classify(d.parameterTypes[i]).Supported?;
    }
  }

  /**
   * The arguments `DrawArguments` leaves for entry `d`: one per parameter, each
   * written for its parameter type. When every kind is written, the matcher
   * accepts them for `d` under `d`'s own type and method name.
   */
  function Drawn(d: CallbackDescription, args: seq<Argument>, filler: Argument): (r: seq<Argument>)
    ensures |r| == |d.parameterTypes|
    ensures AllKindsWritten(d) ==> Matches(d, d.assemblyName, d.methodName, r)
  {
    var n := |d.parameterTypes|;
    var resized := Resized(args, n, filler);
    seq(n, i requires 0 <= i < n => Written(d.parameterTypes[i], resized[i]))
  }

  /**
   * Resize the arguments to the arity of catalog entry `d`, then set each one's
   * kind from its parameter's type. Only catalog entries are drawn, so every
   * enum parameter is int-backed and its value popup does not throw.
   */
  method DrawArguments(d: CallbackDescription, args: seq<Argument>, filler: Argument) returns (written: seq<Argument>)
    requires Representable(d)
    ensures written == Drawn(d, args, filler)
    ensures |written| == |d.parameterTypes|
    ensures forall i :: 0 <= i < |written| && d.parameterTypes[i].TEnum? ==>
      written[i].parameterType == Enum && written[i].stringValue == d.parameterTypes[i].fullName
    ensures Matches(d, d.assemblyName, d.methodName, written)
  {
    RepresentableKindsWritten(d);
    var n := |d.parameterTypes|;
    written := Resized(args, n, filler);
    ghost var resized := written;
    for i := 0 to n
      invariant |written| == n
      invariant forall k :: 0 <= k < i ==> written[k] == Written(d.parameterTypes[k], resized[k])
      invariant forall k :: i <= k < n ==> written[k] == resized[k]
    {
      var t := d.parameterTypes[i];
      var argument := written[i];
      if t == TBool {
        argument := argument.(parameterType := Bool);
      } else if t == TInt {
        argument := argument.(parameterType := Int);
      } else if t == TFloat {
        argument := argument.(parameterType := Float);
      } else if t == TString {
        argument := argument.(parameterType := String);
      } else if t.TSystemObject? || t.TObjectSubclass? {
        argument := argument.(parameterType := Object);
      } else if t.TEnum? {
        argument := argument.(parameterType := Enum, stringValue := t.fullName);
      }
      written := written[i := argument];
    }
  }

  // ---------------------------------------------------------------------------
  // One callback element

  /**
   * Draw one callback element. `picked` is the game object the object field
   * returns and `pickedRef` its serialized reference; `choice` is the row the
   * popup returns; `filler` is what the serialized array puts in new slots.
   * With no game object nothing is written. Otherwise the reference is stored;
   * row 0 keeps the entry the stored binding matches first, row `k + 2` picks
   * entry `k`; a chosen entry overwrites the type and method names and has its
   * arguments drawn, and any other row leaves the binding as it was.
   */
  method DrawElement(stored: Callback, picked: GameObject, pickedRef: ObjectRef, choice: int, filler: Argument)
    returns (updated: Callback)
    ensures picked.None? ==> updated == stored
    ensures picked.Some? ==> updated.objectReference == pickedRef
    ensures picked.Some? ==>
      var catalog := OrderByFullName(Collected(picked));
      (choice == 1 || choice < 0 || choice >= |catalog| + 2) ==> updated == stored.(objectReference := pickedRef)
    ensures picked.Some? ==>
      var catalog := OrderByFullName(Collected(picked));
      2 <= choice < |catalog| + 2 ==>
        var d := catalog[choice - 2];
        updated == Callback(pickedRef, d.assemblyName, d.methodName, Drawn(d, stored.arguments, filler))
    ensures picked.Some? ==>
      var catalog := OrderByFullName(Collected(picked));
      choice == 0 && (forall j :: 0 <= j < |catalog| ==> !Matches(catalog[j], stored.assemblyName, stored.methodName, stored.arguments)) ==>
        updated == stored.(objectReference := pickedRef)
    ensures picked.Some? ==>
      var catalog := OrderByFullName(Collected(picked));
      forall k ::
        (&& 0 <= k < |catalog| && choice == 0
         && Matches(catalog[k], stored.assemblyName, stored.methodName, stored.arguments)
         && (forall j :: 0 <= j < k ==> !Matches(catalog[j], stored.assemblyName, stored.methodName, stored.arguments)))
        ==> updated == Callback(pickedRef, catalog[k].assemblyName, catalog[k].methodName, Drawn(catalog[k], stored.arguments, filler))
    ensures picked.Some? ==>
      var catalog := OrderByFullName(Collected(picked));
      (exists k :: 0 <= k < |catalog| && updated.methodName == catalog[k].methodName
         && Matches(catalog[k], updated.assemblyName, updated.methodName, updated.arguments))
      || updated == stored.(objectReference := pickedRef)
  {
    if picked.None? {
      return stored;
    }
    updated := stored.(objectReference := pickedRef);
    var supportedMethods := CollectSupportedMethods(picked);

    var selectedMethodId := FindMethod(supportedMethods, stored.assemblyName, stored.methodName, stored.arguments);

    // popup row 0 is the current binding, row 1 a blank line, row k + 2 entry k
    if choice != 0 {
      selectedMethodId := choice - 2;
    }

    if selectedMethodId > -1 && selectedMethodId < |supportedMethods| {
      var callbackDescription := supportedMethods[selectedMethodId];
      assert callbackDescription in supportedMethods;
      var arguments := DrawArguments(callbackDescription, stored.arguments, filler);
      updated := updated.(assemblyName := callbackDescription.assemblyName,
                          methodName := callbackDescription.methodName,
                          arguments := arguments);
    }
  }

  /**
   * The round trip: once entry `id` of a catalog has been chosen and its
   * arguments drawn, looking the new binding up again finds `id` or an
   * earlier entry the new binding also matches, never nothing.
   */
  method LookUpAfterDraw(catalog: seq<CallbackDescription>, id: nat, stored: seq<Argument>, filler: Argument)
    returns (found: int)
    requires id < |catalog| && Representable(catalog[id])
    ensures 0 <= found <= id
    ensures Matches(catalog[found], catalog[id].assemblyName, catalog[id].methodName, Drawn(catalog[id], stored, filler))
  {
    var d := catalog[id];
    var arguments := DrawArguments(d, stored, filler);
    found := FindMethod(catalog, d.assemblyName, d.methodName, arguments);
  }

  /**
   * The matcher compares kinds, not signatures, so an earlier overload can take
   * a drawn binding over: with `M(Object a)` taking `System.Object` and
   * `M(Object b)` taking a Unity object class, choosing the second and drawing
   * its arguments leaves a binding the first matches, and the next lookup
   * returns the first.
   */
  method LaterOverloadSnapsBack(typeName: string, methodName: string, objectClass: string, stored: seq<Argument>, filler: Argument)
    returns (found: int)
    ensures found == 0
  {
    var firstName, secondName := methodName + "(Object a)", methodName + "(Object b)";
    var first := CallbackDescription(typeName, methodName, firstName,
                                     typeName + "/" + [firstName[0]] + "/" + firstName, [TSystemObject]);
    var second := CallbackDescription(typeName, methodName, secondName,
                                      typeName + "/" + [secondName[0]] + "/" + secondName, [TObjectSubclass(objectClass)]);
    assert Classify(second.parameterTypes[0]).Supported?;
    var arguments := DrawArguments(second, stored, filler);
    assert Matches(first, second.assemblyName, second.methodName, arguments);
    var catalog := [first, second];
    assert Matches(catalog[0], second.assemblyName, second.methodName, arguments);
    found := FindMethod(catalog, second.assemblyName, second.methodName, arguments);
  }
}
