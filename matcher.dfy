/**
 * The signature matcher (`ListExtensions.FindMethod`): given the type name,
 * method name and arguments stored in a callback, find the first catalog entry
 * they fit.
 */
module Matcher {
  import opened Types
  import opened Strings

  /**
   * Whether a parameter of runtime type `t` accepts the stored argument `a`.
   * A non-enum parameter needs its own kind tag; an enum parameter takes the
   * Enum tag, or any tag when the argument's text, cut at its first comma, is
   * the enum's full name (records written before the Enum tag existed).
   */
  predicate Accepts(t: RuntimeType, a: Argument)
  {
    match t
    case TBool => a.parameterType == Bool
    case TInt => a.parameterType == Int
    case TFloat => a.parameterType == Float
    case TString => a.parameterType == String
    case TSystemObject => a.parameterType == Object
    case TObjectSubclass(_) => a.parameterType == Object
    case TEnum(fullName, _, _) => a.parameterType == Enum || BeforeComma(a.stringValue) == fullName
    case TOther(_) => false
  }

  /**
   * Whether catalog entry `d` fits a stored callback: same arity, same type
   * name up to the first comma on both sides, same method name, and every
   * parameter accepts the argument at its position.
   */
  predicate Matches(d: CallbackDescription, assemblyName: string, methodName: string, arguments: seq<Argument>)
  {
    && |arguments| == |d.parameterTypes|
    && BeforeComma(assemblyName) == BeforeComma(d.assemblyName)
    && methodName == d.methodName
    && forall i :: 0 <= i < |arguments| ==> Accepts(d.parameterTypes[i], arguments[i])
  }

  /** The index of the first entry of `callbacks` that fits the stored callback, or -1 when none does. */
  method FindMethod(callbacks: seq<CallbackDescription>, assemblyName: string, methodName: string, arguments: seq<Argument>)
    returns (found: int)
    ensures -1 <= found < |callbacks|
    ensures 0 <= found ==> Matches(callbacks[found], assemblyName, methodName, arguments)
    ensures 0 <= found ==> forall j :: 0 <= j < found ==> !Matches(callbacks[j], assemblyName, methodName, arguments)
    ensures found == -1 ==> forall j :: 0 <= j < |callbacks| ==> !Matches(callbacks[j], assemblyName, methodName, arguments)
  {
    for id := 0 to |callbacks|
      invariant forall j :: 0 <= j < id ==> !Matches(callbacks[j], assemblyName, methodName, arguments)
    {
      var callback := callbacks[id];

      if |arguments| != |callback.parameterTypes|
        || BeforeComma(assemblyName) != BeforeComma(callback.assemblyName)
        || methodName != callback.methodName
      {
        continue;
      }

      var isMatch := true;
      for i := 0 to |callback.parameterTypes|
        invariant isMatch
        invariant forall k :: 0 <= k < i ==> Accepts(callback.parameterTypes[k], arguments[k])
      {
        var t := callback.parameterTypes[i];
        var kind := arguments[i].parameterType;
        if t == TBool && kind == Bool {
          continue;
        } else if t == TInt && kind == Int {
          continue;
        } else if t == TFloat && kind == Float {
          continue;
        } else if t == TString && kind == String {
          continue;
        } else if (t.TSystemObject? || t.TObjectSubclass?) && kind == Object {
          continue;
        } else if t.TEnum? && (kind == Enum || BeforeComma(arguments[i].stringValue) == t.fullName) {
          continue;
        }
        isMatch := false;
        break;
      }

      if isMatch {
        return id;
      }
    }
    return -1;
  }

  /** A stored type name with a trailing qualifier (`"Foo,AssemblyX"`) fits exactly the entries the bare name fits. */
  lemma QualifiedTypeNameMatches(d: CallbackDescription, name: string, qualifier: string, methodName: string, arguments: seq<Argument>)
    requires ',' !in name
    ensures Matches(d, name + "," + qualifier, methodName, arguments) <==> Matches(d, name, methodName, arguments)
  {
    BeforeCommaDropsQualifier(name, qualifier);
  }

  /** An argument whose text names the enum, with or without a qualifier, fits the enum parameter whatever its tag. */
  lemma LegacyEnumArgumentAccepted(t: RuntimeType, a: Argument, qualifier: string)
    requires t.TEnum? && ',' !in t.fullName
    requires a.stringValue == t.fullName || a.stringValue == t.fullName + "," + qualifier
    ensures Accepts(t, a)
  {
    BeforeCommaDropsQualifier(t.fullName, qualifier);
  }
}
