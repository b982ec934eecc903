/**
 * The entities of the event-listener tools as values: the serialized argument
 * and callback records, the editor's catalog entry, and a small stand-in for a
 * runtime `Type` as far as the tools inspect it.
 */
module Types {

  datatype Option<+T> = None | Some(value: T)

  /** A C# `int`. */
  newtype int32 = x: int | -0x8000_0000 <= x < 0x8000_0000

  /** A C# `float`, kept as its IEEE-754 bit pattern; nothing here computes with it. */
  type Float32 = bv32

  /** A serialized reference to a Unity object: null, or an object and the full name of its class. */
  datatype ObjectRef = Null | Ref(instanceId: int, classFullName: string)

  /** The kind tag stored with each argument (the `ParameterType` enum). */
  datatype ParameterType = None | Bool | Int | Float | String | Object | Enum

  /**
   * A serialized argument: a kind tag and one field per payload, all of them
   * always present (the `Argument` class). An enum value is kept as its ordinal
   * in `intValue` and the enum's full type name in `stringValue`.
   */
  datatype Argument = Argument(
    parameterType: ParameterType,
    boolValue: bool,
    intValue: int32,
    stringValue: string,
    floatValue: Float32,
    objectValue: ObjectRef)

  /** A serialized method binding (the `Callback` class). */
  datatype Callback = Callback(
    objectReference: ObjectRef,
    assemblyName: string,
    methodName: string,
    arguments: seq<Argument>)

  /**
   * What the tools ask of a parameter's runtime type. `TSystemObject` is
   * `System.Object`; `TObjectSubclass` is a strict subclass of
   * `UnityEngine.Object` (that class itself is not a strict subclass of itself,
   * so it is a `TOther`); an enum carries its `FullName`, its short `Name` and
   * whether its underlying type is `int`.
   */
  datatype RuntimeType =
    | TBool
    | TInt
    | TFloat
    | TString
    | TSystemObject
    | TObjectSubclass(fullName: string)
    | TEnum(fullName: string, name: string, intBacked: bool)
    | TOther(fullName: string)

  /** One entry of the editor's method catalog (the `CallbackDescription` class). */
  datatype CallbackDescription = CallbackDescription(
    assemblyName: string,
    methodName: string,
    fullMethodName: string,
    qualifiedMethodName: string,
    parameterTypes: seq<RuntimeType>)
}
