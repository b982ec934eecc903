/**
 * The argument marshaller of `EventListener.Trigger`: turn the stored tagged
 * arguments of one callback into the value array and the type array that the
 * reflective lookup and call receive.
 */
module Marshalling {
  import opened Types

  /**
   * An element of the `object[]` argument array. `VNull` is C#'s null; an enum
   * value is the pair of its stored type name and ordinal (the model does not
   * rebuild the enumerator itself).
   */
  datatype Value =
    | VNull
    | VBool(b: bool)
    | VInt(i: int32)
    | VFloat(f: Float32)
    | VString(s: string)
    | VObject(instanceId: int, classFullName: string)
    | VEnum(enumTypeName: string, ordinal: int32)

  /** What `GetType()` returns for a non-null value. */
  datatype ValueType =
    | SystemBoolean
    | SystemInt32
    | SystemSingle
    | SystemString
    | ObjectClass(fullName: string)
    | EnumClass(fullName: string)

  /** The value the marshaller stores for one argument; a kind of None leaves the slot null. */
  function Marshal(a: Argument): Value
  {
    match a.parameterType
    case None => VNull
    case Bool => VBool(a.boolValue)
    case Int => VInt(a.intValue)
    case Float => VFloat(a.floatValue)
    case Object =>
      (match a.objectValue
       case Null => VNull
       case Ref(id, cls) => VObject(id, cls))
    case String => VString(a.stringValue)
    case Enum => VEnum(a.stringValue, a.intValue)
  }

  /** `GetType()` of a value: no type for null, where the call throws. */
  function TypeOf(v: Value): Option<ValueType>
  {
    match v
    case VNull => Option.None
    case VBool(_) => Some(SystemBoolean)
    case VInt(_) => Some(SystemInt32)
    case VFloat(_) => Some(SystemSingle)
    case VString(_) => Some(SystemString)
    case VObject(_, cls) => Some(ObjectClass(cls))
    case VEnum(name, _) => Some(EnumClass(name))
  }

  /** The argument array leaves null only for kind None, or for kind Object with a null reference. */
  lemma MarshalNullExactly(a: Argument)
    ensures Marshal(a) == VNull <==> a.parameterType.None? || (a.parameterType == Object && a.objectValue.Null?)
    ensures TypeOf(Marshal(a)).None? <==> Marshal(a) == VNull
  {
  }

  /** Every argument of `args` marshals to a non-null value. */
  predicate Marshallable(args: seq<Argument>)
  {
    forall i :: 0 <= i < |args| ==> Marshal(args[i]) != VNull
  }

  /** `j` is the first argument of `args` that marshals to null. */
  predicate FirstNull(args: seq<Argument>, j: int)
  {
    0 <= j < |args| && Marshal(args[j]) == VNull && forall k :: 0 <= k < j ==> Marshal(args[k]) != VNull
  }

  /** The marshalled values of `args`, in order. */
  function MarshalledValues(args: seq<Argument>): seq<Value>
  {
    seq(|args|, i requires 0 <= i < |args| => Marshal(args[i]))
  }

  /** The runtime types of the marshalled values of `args`, in order. */
  function MarshalledTypes(args: seq<Argument>): seq<ValueType>
    requires Marshallable(args)
  {
    seq(|args|, i requires 0 <= i < |args| && Marshallable(args) => TypeOf(Marshal(args[i])).value)
  }

  /** The result of marshalling one callback: both arrays, or the position of the null whose `GetType()` throws. */
  datatype MarshalResult =
    | Marshalled(arguments: seq<Value>, types: seq<ValueType>)
    | NullArgumentAt(index: nat)

  /**
   * Fill the argument array and the type array position by position. The
   * first argument that leaves a null stops the loop.
   */
  method MarshalArguments(args: seq<Argument>) returns (r: MarshalResult)
    ensures r.Marshalled? <==> Marshallable(args)
    ensures r.Marshalled? ==> |r.arguments| == |args| && |r.types| == |args|
    ensures r.Marshalled? ==> forall i :: 0 <= i < |args| ==> r.arguments[i] == Marshal(args[i])
    ensures r.Marshalled? ==> forall i :: 0 <= i < |args| ==> TypeOf(r.arguments[i]) == Some(r.types[i])
    ensures r.NullArgumentAt? ==> FirstNull(args, r.index)
  {
    var arguments := new Value[|args|](_ => VNull);
    // every slot is written before the array is read
    var types := new ValueType[|args|](_ => SystemBoolean);
    for i := 0 to arguments.Length
      invariant forall k :: 0 <= k < i ==> arguments[k] == Marshal(args[k]) && arguments[k] != VNull
      invariant forall k :: 0 <= k < i ==> TypeOf(arguments[k]) == Some(types[k])
      invariant forall k :: i <= k < arguments.Length ==> arguments[k] == VNull
    {
      var argument := args[i];
      if argument.parameterType == Bool {
        arguments[i] := VBool(argument.boolValue);
      } else if argument.parameterType == Int {
        arguments[i] := VInt(argument.intValue);
      } else if argument.parameterType == Float {
        arguments[i] := VFloat(argument.floatValue);
      } else if argument.parameterType == Object {
        arguments[i] := if argument.objectValue.Null? then VNull
                        else VObject(argument.objectValue.instanceId, argument.objectValue.classFullName);
      } else if argument.parameterType == String {
        arguments[i] := VString(argument.stringValue);
      } else if argument.parameterType == Enum {
        arguments[i] := VEnum(argument.stringValue, argument.intValue);
      }

      var t := TypeOf(arguments[i]);
      if t.None? {
        return NullArgumentAt(i);
      }
      types[i] := t.value;
    }
    r := Marshalled(arguments[..], types[..]);
  }
}
