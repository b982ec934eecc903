# Event listener tools, modelled in Dafny

The tools have two parts. The `EventListener` component fires a list of stored
method bindings ("callbacks") when a chosen Unity event arrives, provided the
actor's tag passes a filter. The editor (`TestInspector`) builds those bindings.
It lists every method of a game object's behaviours whose parameters it can
store (the catalog), finds the catalog entry a stored binding refers to, and
writes the argument kinds for the chosen method.

This project models that logic on values. A runtime `Type` becomes the small
datatype `Types.RuntimeType`. Reflection over a game object becomes its
answers: each behaviour is given as its chain of types with their declared
methods. The modules, in dependency order:

- `Types`: the serialized records (`Argument`, `Callback`), the catalog entry
  (`CallbackDescription`), `int32`, and the runtime type stand-in.
- `Strings`: `Split(",")[0]` (`BeforeComma`) and ordinal string order, with
  its laws.
- `Matcher`: `ListExtensions.FindMethod`, a first-match search written as the
  source's nested loop, proved against the `Matches` predicate.
- `Catalog`: `CollectSupportedMethods`. It has four loop methods. The
  per-parameter loop is proved to build the types and the joined `kind name`
  text of `JoinParameters`. The per-method, per-type and per-behaviour loops
  are each proved equal to a walk function. The walk is sorted by a stable
  insertion sort in ordinal order of `fullMethodName`. The result is proved sorted, a permutation of
  the walk, stable, and the unique such order.
- `Marshalling`: the argument loop of `EventListener.Trigger`, over two arrays.
- `Listener`: the nineteen `On*` gates and the `Trigger` loop. The run's
  outcome is stated by the `IsTriggerRun` relation, which is proved
  functional.
- `Editor`: `DrawMethodAndArguments` and the kind assignment of
  `DrawArguments`. Includes the round trip: after an entry is chosen and its
  arguments are drawn, `FindMethod` finds that entry or an earlier one the new
  binding also matches (an earlier overload can take it over).

Behaviours of the code a reader might not expect:

- The name denylist in `CollectSupportedMethods` is a conjunction of four
  different names, so it excludes nothing (`Catalog.DenylistExcludesNothing`).
- The `OnTriggerExit2D` handler tests for `OnTriggerEnter2D`
  (`Listener.TriggerExit2DGuardsEnter`).
- At run time `Trigger` does not consult the catalog or `FindMethod`. It looks
  the type up by its stored name plus `,Assembly-CSharp` among the components
  of the listener's game object and its children, and ignores the stored
  object reference. A lookup or call that fails throws. That ends the whole
  `Trigger` run rather than skipping one binding.
- `UnityEngine.Object` itself is not a supported parameter type. The test is a
  strict `IsSubclassOf`, so such a parameter is a `TOther`.

## Model

| member | source | states |
|---|---|---|
| Strings.BeforeComma | EventListener.cs:97 | the result is a comma-free prefix of the input, and it is the whole input or is followed by a comma |
| Strings.BeforeCommaDropsQualifier | EventListener.cs:97 | a comma-free name with or without a `,qualifier` suffix cuts to the name itself |
| Strings.OrdinalReflexive | EventListener.cs:587 | ordinal order is reflexive |
| Strings.OrdinalTotal | EventListener.cs:587 | any two strings are comparable in ordinal order |
| Strings.OrdinalAntisymmetric | EventListener.cs:587 | strings ordered both ways are equal |
| Strings.OrdinalTransitive | EventListener.cs:587 | ordinal order is transitive |
| Matcher.FindMethod | EventListener.cs:89-132 | returns -1 or an index into the catalog. The entry at that index has the stored arity, the same type name up to the first comma, the same method name, and a parameter accepting every stored kind. No earlier entry matches. -1 only when no entry matches |
| Matcher.QualifiedTypeNameMatches | EventListener.cs:97 | a stored `"Foo,AssemblyX"` matches exactly the entries a stored `"Foo"` matches |
| Matcher.LegacyEnumArgumentAccepted | EventListener.cs:122 | an enum parameter accepts any kind whose text names the enum, with or without a qualifier |
| Catalog.ClassifierAcceptsExactly | EventListener.cs:546-559 | a parameter type is supported exactly when it is bool, int, float, string, System.Object, a strict Object subclass, or an int-backed enum |
| Catalog.DenylistExcludesNothing | EventListener.cs:533 | the name test never drops a method |
| Catalog.ParseParameters | EventListener.cs:535-564 | one parameter type per parameter, in order. Signature is the start text plus the joined `type name` list. Valid exactly when every parameter is supported |
| Catalog.DescribeMethod | EventListener.cs:535-581 | an entry exactly when all parameters are supported, carrying the method name, the declaring type's full name, the parameter types in order, and `name(...)`. The entry is representable |
| Catalog.Walked | EventListener.cs:526-584 | the visited types are a prefix of the chain, none is MonoBehaviour, and the walk ends at the chain's end or at MonoBehaviour |
| Catalog.InsertPermutes | EventListener.cs:587 | inserting adds exactly one element |
| Catalog.InsertSorted | EventListener.cs:587 | inserting into a sorted list keeps it sorted |
| Catalog.InsertStable | EventListener.cs:587 | inserting puts the new element before the elements with its name |
| Catalog.OrderByFullNameSorted | EventListener.cs:587 | the sorted catalog is in ordinal order of `fullMethodName` |
| Catalog.OrderByFullNamePermutes | EventListener.cs:587 | the sorted catalog is a permutation of the walk |
| Catalog.OrderByFullNameStable | EventListener.cs:587 | entries with the same `fullMethodName` keep their walk order |
| Catalog.WithFullNameMembers | EventListener.cs:587 | the entries with a name are exactly the members carrying that name |
| Catalog.StableSortUnique | EventListener.cs:587 | any sorted, stable permutation of the walk is the sorted catalog |
| Catalog.SortedStableEqual | EventListener.cs:587 | two sorted lists with the same elements and the same order within each name are equal |
| Catalog.SortedStableHead | EventListener.cs:587 | two such lists start with the same element |
| Catalog.DescribeAllMembers | EventListener.cs:530-581 | an entry comes from a type's methods exactly when one of them describes to it |
| Catalog.ChainMethodsMembers | EventListener.cs:526-584 | an entry comes from a chain exactly when a visited type's methods yield it |
| Catalog.CollectedFromMembers | EventListener.cs:521-585 | an entry comes from the behaviours exactly when a non-null behaviour's walk yields it |
| Catalog.CatalogMembership | EventListener.cs:514-588 | an entry is in the catalog exactly when a visited type of a non-null behaviour declares a method describing to it |
| Catalog.DescribedRepresentable | EventListener.cs:567-581 | a described method gives a representable entry with one type per parameter |
| Catalog.CatalogFacts | EventListener.cs:514-588 | the sorted catalog is sorted, a permutation of the walk, stable, and holds only representable entries |
| Catalog.CollectDeclared | EventListener.cs:529-582 | appends the entries of a type's own methods, in order |
| Catalog.CollectBehaviour | EventListener.cs:526-584 | appends the entries of every type up the chain until MonoBehaviour or the chain's end |
| Catalog.CollectBehaviours | EventListener.cs:521-585 | appends the entries of every non-null behaviour, in order |
| Catalog.CollectSupportedMethods | EventListener.cs:514-588 | the catalog is the walk sorted stably by ordinal `fullMethodName`. It is sorted, a permutation of the walk, stable, and holds only representable entries. Empty for a null game object |
| Marshalling.MarshalNullExactly | EventListener.cs:286-302 | a slot stays null exactly for kind None, or kind Object with a null reference, and only null has no runtime type |
| Marshalling.MarshalArguments | EventListener.cs:284-303 | both arrays have the argument count as length. Each value is its stored payload, an enum the pair (type name, ordinal). Each type is its value's runtime type. Fails exactly when some slot is null, and then at the first one |
| Listener.Gate | EventListener.cs:143-275 | a handler fires exactly when the listener is set to its guard event and the tag filter is empty or equals the actor's tag. It faults exactly when the filter is set and the actor is null |
| Listener.HandlersGuardOwnEvent | EventListener.cs:143-275 | every handler but `OnTriggerExit2D` fires only for a listener set to its own event |
| Listener.TriggerExit2DGuardsEnter | EventListener.cs:249-254 | a listener set to `OnTriggerExit2D` never fires. One set to `OnTriggerEnter2D` with no filter fires on the enter and the exit handler and no other |
| Listener.TriggerRunUnique | EventListener.cs:277-310 | the run of `Trigger` is determined by the callbacks and the outcome of each call |
| Listener.Trigger | EventListener.cs:277-310 | nothing for null callbacks. Otherwise one call per callback in order, with the callback's type name plus `,Assembly-CSharp`, its method name and its marshalled arrays. Stops at the first callback with a null argument or a failing call |
| Listener.RepeatedCallMayFailLater | EventListener.cs:306-308 | the same callback twice can complete the first time and throw the second, which ends the run after two calls |
| Listener.OnEvent | EventListener.cs:143-310 | a handler followed by its effect: the `Trigger` run when its gate fires, nothing when it does not, and a fault for a null actor under a tag filter |
| Editor.Resized | EventListener.cs:462 | the arguments get the method's arity, keeping the existing prefix |
| Editor.Written | EventListener.cs:472-505 | a parameter of any type but `TOther` gets the kind the matcher accepts for it, and an enum also gets its full name; a `TOther` one is untouched. Other payloads are kept |
| Editor.RepresentableKindsWritten | EventListener.cs:472-504 | every parameter of a catalog entry gets its kind written |
| Editor.Drawn | EventListener.cs:447-506 | one argument per parameter. When every kind is written, the entry matches the arguments under its own names |
| Editor.DrawArguments | EventListener.cs:447-506 | for a catalog entry (the only caller passes one, so every enum is int-backed): the arguments are resized to the arity, each kind is written from its parameter type, and enums carry their full name. The entry then matches them |
| Editor.DrawElement | EventListener.cs:379-441 | nothing without a game object. Otherwise the reference is stored. Row 0 selects the first matching entry, row `k + 2` entry `k`. A selected entry rewrites the names and draws the arguments, and the new binding matches it. Any other row changes nothing more |
| Editor.LookUpAfterDraw | EventListener.cs:89-132 | after entry `id` is chosen and drawn, `FindMethod` on the new binding finds `id` or an earlier entry the new binding also matches, never -1 |
| Editor.LaterOverloadSnapsBack | EventListener.cs:89-132 | with overloads `M(Object a)` on `System.Object` and `M(Object b)` on a Unity object class, drawing the second leaves a binding that the next lookup resolves to the first |

## Left out

- Reflection and the Unity runtime are outside the model: `Type.GetType`, `GetComponentInChildren`, `GetMethod(name, types)` and `Invoke`. `Listener.Trigger` takes a parameter `completes(k, call)` that says whether the `k`-th call's lookup and invocation finish without throwing. Because it is indexed by position, it can express outcomes that depend on earlier calls. Which overload is selected, and what the called method does, are not modelled.
- `Listener.Trigger` does not rebuild an enum value with `Enum.ToObject`. The value is the pair (stored type name, ordinal), and its type is the stored name. A type name that does not resolve is not modelled as a fault.
- Float payloads are opaque bit patterns passed through unchanged.
- Listener gate actors: a null actor under a tag filter throws in the source. The model reports this as the `ActorWithoutTag` fault, not as an exception.
- Editor UI and layout are not modelled: rect arithmetic, popups, `GetElementHeight`, `OnInspectorGUI` and `ReorderableList`. The popup is replaced by its returned row. The per-field editors are replaced by the payloads already stored, so values the user types are not modelled.
- `Editor.Written`: an enum that is not int-backed is written as an enum with its full name, while the source throws at the `(int)` unboxing on line 504 before storing the name. `DrawArguments` is only called with catalog entries, which hold no such enum, so no caller reaches this case.
- `Editor.Resized`: the values Unity puts in new array slots are given by the `filler` parameter.
- `Editor.DrawElement` takes the picked game object's serialized reference as a separate parameter.
- Strings are sequences of characters compared by code. Ordinal order on surrogate pairs and any culture-specific behaviour are not modelled.
