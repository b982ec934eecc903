/**
 * The catalog builder (`TestInspector.CollectSupportedMethods`): walk every
 * behaviour of a game object up its type chain, keep the methods whose
 * parameters are all of a supported type, describe each one, and order the
 * result by ordinal comparison of the display signature.
 *
 * Reflection is replaced by its answers: a behaviour is the chain of its
 * runtime type and base types, each with the methods it declares itself.
 */
module Catalog {
  import opened Types
  import opened Strings

  datatype ParameterInfo = ParameterInfo(parameterType: RuntimeType, name: string)

  datatype MethodInfo = MethodInfo(name: string, parameters: seq<ParameterInfo>)

  /**
   * A type as the walk sees it: its `FullName`, the text `ToString` gives for
   * it, and the methods it declares itself (static and instance, public and
   * non-public), in the order reflection lists them.
   */
  datatype TypeInfo = TypeInfo(fullName: string, displayName: string, methods: seq<MethodInfo>)

  /**
   * A behaviour component, as its runtime type followed by that type's base
   * types, most derived first; the sequence ends where `BaseType` is null.
   */
  type Behaviour = seq<TypeInfo>

  /** A game object: null, or its behaviours in the order `GetComponentsInChildren` gives them (each possibly null). */
  type GameObject = Option<seq<Option<Behaviour>>>

  const MonoBehaviourName: string := "UnityEngine.MonoBehaviour"

  predicate IsMonoBehaviour(t: TypeInfo)
  {
    t.fullName == MonoBehaviourName
  }

  // ---------------------------------------------------------------------------
  // Classification and the display signature

  /** What the classifier makes of a parameter type: the word shown in the signature, or a rejection. */
  datatype Classification = Supported(typeString: string) | Unsupported

  function Classify(t: RuntimeType): Classification
  {
    match t
    case TBool => Supported("bool")
    case TInt => Supported("int")
    case TFloat => Supported("float")
    case TString => Supported("string")
    case TSystemObject => Supported("Object")
    case TObjectSubclass(_) => Supported("Object")
    case TEnum(_, name, intBacked) => if intBacked then Supported(name) else Unsupported
    case TOther(_) => Unsupported
  }

  /** Exactly six families of parameter types are representable; any other type rejects its method. */
  lemma ClassifierAcceptsExactly(t: RuntimeType)
    ensures Classify(t).Supported? <==>
      t in {TBool, TInt, TFloat, TString, TSystemObject} || t.TObjectSubclass? || (t.TEnum? && t.intBacked)
  {
  }

  /** The name test of the walk: a conjunction of four different names, as the source writes it. */
  predicate Denied(name: string)
  {
    name == "Main" && name == "Start" && name == "Awake" && name == "Update"
  }

  /** No name is equal to four different names at once, so the test never drops a method. */
  lemma DenylistExcludesNothing(name: string)
    ensures !Denied(name)
  {
  }

  /** `kind name` for one parameter; the kind word is empty for an unsupported type. */
  function ParameterText(p: ParameterInfo): string
  {
    var word := match Classify(p.parameterType)
      case Supported(s) => s
      case Unsupported => "";
    word + " " + p.name
  }

  /** The parameter texts joined by `", "`. */
  function JoinParameters(ps: seq<ParameterInfo>): string
  {
    if ps == [] then ""
    else if |ps| == 1 then ParameterText(ps[0])
    else JoinParameters(ps[..|ps| - 1]) + ", " + ParameterText(ps[|ps| - 1])
  }

  /** Appending one parameter to the joined text. */
  lemma JoinStep(ps: seq<ParameterInfo>, i: nat)
    requires i < |ps|
    ensures JoinParameters(ps[..i + 1]) == (if i == 0 then "" else JoinParameters(ps[..i]) + ", ") + ParameterText(ps[i])
  {
    assert ps[..i + 1][..i] == ps[..i];
  }

  /** The display signature `name(kind p, ...)`. */
  function FullMethodName(m: MethodInfo): string
  {
    m.name + "(" + JoinParameters(m.parameters) + ")"
  }

  predicate AllSupported(ps: seq<ParameterInfo>)
  {
    forall i :: 0 <= i < |ps| ==> Classify(ps[i].parameterType).Supported?
  }

  /** Every parameter type of a catalog entry is one the classifier accepts. */
  predicate Representable(d: CallbackDescription)
  {
    forall i :: 0 <= i < |d.parameterTypes| ==> Classify(d.parameterTypes[i]).Supported?
  }

  /** The catalog entry for method `m` declared by `declaring`, or None when the method is dropped. */
  function Describe(declaring: TypeInfo, m: MethodInfo): Option<CallbackDescription>
  {
    if Denied(m.name) || !AllSupported(m.parameters) then Option.None
    else
      var full := FullMethodName(m);
      Some(CallbackDescription(
        assemblyName := declaring.fullName,
        methodName := m.name,
        fullMethodName := full,
        qualifiedMethodName := declaring.displayName + "/" + [full[0]] + "/" + full,
        parameterTypes := seq(|m.parameters|, i requires 0 <= i < |m.parameters| => m.parameters[i].parameterType)))
  }

  /**
   * The parameter loop of one method: classify each parameter in declaration
   * order, collect its type and append `kind name` to the signature text begun
   * in `fullMethodName`; `validMethod` turns false at the first unsupported type.
   */
  method ParseParameters(parameters: seq<ParameterInfo>, start: string)
    returns (parameterTypes: seq<RuntimeType>, fullMethodName: string, validMethod: bool)
    ensures |parameterTypes| == |parameters|
    ensures forall k :: 0 <= k < |parameters| ==> parameterTypes[k] == parameters[k].parameterType
    ensures fullMethodName == start + JoinParameters(parameters)
    ensures validMethod <==> AllSupported(parameters)
  {
    parameterTypes := [];
    fullMethodName := start;
    validMethod := true;
    for i := 0 to |parameters|
      invariant |parameterTypes| == i
      invariant forall k :: 0 <= k < i ==> parameterTypes[k] == parameters[k].parameterType
      invariant fullMethodName == start + JoinParameters(parameters[..i])
      invariant validMethod <==> forall k :: 0 <= k < i ==> Classify(parameters[k].parameterType).Supported?
    {
      JoinStep(parameters, i);
      ghost var joined := if i == 0 then "" else JoinParameters(parameters[..i]) + ", ";
      if i > 0 {
        AppendAssociative(start, JoinParameters(parameters[..i]), ", ");
        fullMethodName := fullMethodName + ", ";
      }
      assert fullMethodName == start + joined;
      var parameter := parameters[i];
      var strType := "";
      match Classify(parameter.parameterType) {
        case Supported(s) =>
          strType := s;
        case Unsupported =>
          validMethod := false;
      }
      assert strType + " " + parameter.name == ParameterText(parameter);
      AppendAssociative(start, joined, ParameterText(parameter));
      parameterTypes := parameterTypes + [parameter.parameterType];
      fullMethodName := fullMethodName + (strType + " " + parameter.name);
    }
    assert parameters[..|parameters|] == parameters;
  }

  /**
   * One method of the walk: its entry when every parameter is supported,
   * None when the method is dropped.
   */
  method DescribeMethod(declaring: TypeInfo, m: MethodInfo) returns (d: Option<CallbackDescription>)
    ensures d == Describe(declaring, m)
    ensures d.Some? <==> AllSupported(m.parameters)
    ensures d.Some? ==> d.value.methodName == m.name && d.value.assemblyName == declaring.fullName
    ensures d.Some? ==> |d.value.parameterTypes| == |m.parameters|
    ensures d.Some? ==> forall i :: 0 <= i < |m.parameters| ==> d.value.parameterTypes[i] == m.parameters[i].parameterType
    ensures d.Some? ==> d.value.fullMethodName == m.name + "(" + JoinParameters(m.parameters) + ")"
    ensures d.Some? ==> Representable(d.value)
  {
    DenylistExcludesNothing(m.name);
    var parameterTypes, fullMethodName, validMethod := ParseParameters(m.parameters, m.name + "(");
    if !validMethod {
      return Option.None;
    }
    fullMethodName := fullMethodName + ")";
    assert parameterTypes == seq(|m.parameters|, i requires 0 <= i < |m.parameters| => m.parameters[i].parameterType);
    d := Some(CallbackDescription(
      assemblyName := declaring.fullName,
      methodName := m.name,
      fullMethodName := fullMethodName,
      qualifiedMethodName := declaring.displayName + "/" + [fullMethodName[0]] + "/" + fullMethodName,
      parameterTypes := parameterTypes));
  }

  // ---------------------------------------------------------------------------
  // The walk, as functions

  /** The entries of the methods `ms` declared by `declaring`, in order. */
  function DescribeAll(declaring: TypeInfo, ms: seq<MethodInfo>): seq<CallbackDescription>
  {
    if ms == [] then []
    else Listed(Describe(declaring, ms[0])) + DescribeAll(declaring, ms[1..])
  }

  /** A kept method's entry as a one-element list; nothing for a dropped method. */
  function Listed(d: Option<CallbackDescription>): seq<CallbackDescription>
  {
    match d
    case Some(entry) => [entry]
    case None => []
  }

  /** The walk over methods `k..` is method `k`'s entry, if any, followed by the rest. */
  lemma DescribeAllStep(declaring: TypeInfo, ms: seq<MethodInfo>, k: nat)
    requires k < |ms|
    ensures DescribeAll(declaring, ms[k..]) ==
      Listed(Describe(declaring, ms[k])) + DescribeAll(declaring, ms[k + 1..])
  {
    assert ms[k..][1..] == ms[k + 1..];
  }

  /** Appending is associative; the loops below move one element from the pending walk to the accumulator. */
  lemma AppendAssociative<T>(a: seq<T>, b: seq<T>, c: seq<T>)
    ensures a + (b + c) == (a + b) + c
  {
  }

  /** One step of the per-method loop: appending method `k`'s entry, if any, keeps the walk's total. */
  lemma CollectDeclaredStep(declaring: TypeInfo, ms: seq<MethodInfo>, k: nat, collected: seq<CallbackDescription>, d: Option<CallbackDescription>)
    requires k < |ms| && d == Describe(declaring, ms[k])
    ensures collected + DescribeAll(declaring, ms[k..]) ==
      (collected + Listed(d)) + DescribeAll(declaring, ms[k + 1..])
  {
    DescribeAllStep(declaring, ms, k);
    AppendAssociative(collected, Listed(d), DescribeAll(declaring, ms[k + 1..]));
  }

  /** The entries of one behaviour: its type chain up to, not including, `MonoBehaviour`. */
  function ChainMethods(chain: Behaviour): seq<CallbackDescription>
  {
    if chain == [] || IsMonoBehaviour(chain[0]) then []
    else DescribeAll(chain[0], chain[0].methods) + ChainMethods(chain[1..])
  }

  /** The entries of all behaviours in order, null behaviours skipped. */
  function CollectedFrom(behaviours: seq<Option<Behaviour>>): seq<CallbackDescription>
  {
    if behaviours == [] then []
    else BehaviourMethods(behaviours[0]) + CollectedFrom(behaviours[1..])
  }

  /** The entries of one behaviour; none when it is null. */
  function BehaviourMethods(behaviour: Option<Behaviour>): seq<CallbackDescription>
  {
    match behaviour
    case Some(chain) => ChainMethods(chain)
    case None => []
  }

  /** One step of the per-type loop: appending type `t`'s entries keeps the chain's total. */
  lemma CollectBehaviourStep(chain: Behaviour, t: nat, collected: seq<CallbackDescription>)
    requires t < |chain| && !IsMonoBehaviour(chain[t])
    ensures collected + ChainMethods(chain[t..]) ==
      (collected + DescribeAll(chain[t], chain[t].methods)) + ChainMethods(chain[t + 1..])
  {
    assert chain[t..][1..] == chain[t + 1..];
    AppendAssociative(collected, DescribeAll(chain[t], chain[t].methods), ChainMethods(chain[t + 1..]));
  }

  /** One step of the per-behaviour loop: appending behaviour `b`'s entries (none if null) keeps the total. */
  lemma CollectedFromStep(behaviours: seq<Option<Behaviour>>, b: nat, collected: seq<CallbackDescription>)
    requires b < |behaviours|
    ensures collected + CollectedFrom(behaviours[b..]) ==
      (collected + BehaviourMethods(behaviours[b])) + CollectedFrom(behaviours[b + 1..])
  {
    assert behaviours[b..][1..] == behaviours[b + 1..];
    AppendAssociative(collected, BehaviourMethods(behaviours[b]), CollectedFrom(behaviours[b + 1..]));
  }

  /** The entries before sorting; none for a null game object. */
  function Collected(gameObject: GameObject): seq<CallbackDescription>
  {
    match gameObject
    case None => []
    case Some(behaviours) => CollectedFrom(behaviours)
  }

  /** The types the walk visits: the chain up to its first `MonoBehaviour`. */
  function Walked(chain: Behaviour): (w: Behaviour)
    ensures w <= chain
    ensures forall t :: t in w ==> !IsMonoBehaviour(t)
    ensures w == chain || IsMonoBehaviour(chain[|w|])
  {
    if chain == [] || IsMonoBehaviour(chain[0]) then [] else [chain[0]] + Walked(chain[1..])
  }

  // ---------------------------------------------------------------------------
  // Ordinal stable sort (`OrderBy(x => x.fullMethodName, StringComparer.Ordinal)`)

  /** `d` placed before the first entry whose signature is not ordinally smaller than its own. */
  function Insert(d: CallbackDescription, s: seq<CallbackDescription>): seq<CallbackDescription>
  {
    if s == [] || OrdinalLe(d.fullMethodName, s[0].fullMethodName) then [d] + s
    else [s[0]] + Insert(d, s[1..])
  }

  function OrderByFullName(s: seq<CallbackDescription>): seq<CallbackDescription>
  {
    if s == [] then [] else Insert(s[0], OrderByFullName(s[1..]))
  }

  predicate SortedByFullName(s: seq<CallbackDescription>)
  {
    forall i, j :: 0 <= i < j < |s| ==> OrdinalLe(s[i].fullMethodName, s[j].fullMethodName)
  }

  /** The entries of `s` whose signature is `name`, in their order in `s`. */
  function WithFullName(s: seq<CallbackDescription>, name: string): seq<CallbackDescription>
  {
    if s == [] then []
    else (if s[0].fullMethodName == name then [s[0]] else []) + WithFullName(s[1..], name)
  }

  lemma {:induction false} InsertPermutes(d: CallbackDescription, s: seq<CallbackDescription>)
    ensures multiset(Insert(d, s)) == multiset(s) + multiset{d}
  {
    if s != [] && !OrdinalLe(d.fullMethodName, s[0].fullMethodName) {
      InsertPermutes(d, s[1..]);
      assert s == [s[0]] + s[1..];
    }
  }

  lemma {:induction false} InsertSorted(d: CallbackDescription, s: seq<CallbackDescription>)
    requires SortedByFullName(s)
    ensures SortedByFullName(Insert(d, s))
  {
    if s == [] {
    } else if OrdinalLe(d.fullMethodName, s[0].fullMethodName) {
      forall j | 0 < j < |s|
        ensures OrdinalLe(d.fullMethodName, s[j].fullMethodName)
      {
        OrdinalTransitive(d.fullMethodName, s[0].fullMethodName, s[j].fullMethodName);
      }
    } else {
      var rest := Insert(d, s[1..]);
      InsertSorted(d, s[1..]);
      InsertPermutes(d, s[1..]);
      OrdinalTotal(d.fullMethodName, s[0].fullMethodName);
      forall j | 0 <= j < |rest|
        ensures OrdinalLe(s[0].fullMethodName, rest[j].fullMethodName)
      {
        assert rest[j] in multiset(rest);
        if rest[j] != d {
          assert rest[j] in multiset(s[1..]);
          var k :| 0 <= k < |s[1..]| && s[1..][k] == rest[j];
          assert s[k + 1] == rest[j];
        }
      }
    }
  }

  lemma {:induction false} InsertStable(d: CallbackDescription, s: seq<CallbackDescription>, name: string)
    ensures WithFullName(Insert(d, s), name) == (if d.fullMethodName == name then [d] else []) + WithFullName(s, name)
  {
    if s == [] || OrdinalLe(d.fullMethodName, s[0].fullMethodName) {
      assert ([d] + s)[1..] == s;
    } else {
      OrdinalReflexive(d.fullMethodName);
      InsertStable(d, s[1..], name);
      assert ([s[0]] + Insert(d, s[1..]))[1..] == Insert(d, s[1..]);
    }
  }

  /** The order is sorted by signature under ordinal comparison. */
  lemma {:induction false} OrderByFullNameSorted(s: seq<CallbackDescription>)
    ensures SortedByFullName(OrderByFullName(s))
  {
    if s != [] {
      OrderByFullNameSorted(s[1..]);
      InsertSorted(s[0], OrderByFullName(s[1..]));
    }
  }

  /** The order holds the same entries, each as often. */
  lemma {:induction false} OrderByFullNamePermutes(s: seq<CallbackDescription>)
    ensures multiset(OrderByFullName(s)) == multiset(s)
  {
    if s != [] {
      OrderByFullNamePermutes(s[1..]);
      InsertPermutes(s[0], OrderByFullName(s[1..]));
      assert s == [s[0]] + s[1..];
    }
  }

  /** The order is stable: entries with equal signatures keep their relative order. */
  lemma {:induction false} OrderByFullNameStable(s: seq<CallbackDescription>, name: string)
    ensures WithFullName(OrderByFullName(s), name) == WithFullName(s, name)
  {
    if s != [] {
      OrderByFullNameStable(s[1..], name);
      InsertStable(s[0], OrderByFullName(s[1..]), name);
    }
  }

  lemma {:induction false} WithFullNameMembers(s: seq<CallbackDescription>, name: string, d: CallbackDescription)
    ensures d in WithFullName(s, name) <==> d in s && d.fullMethodName == name
  {
    if s != [] {
      WithFullNameMembers(s[1..], name, d);
      assert s == [s[0]] + s[1..];
    }
  }

  /**
   * A sorted permutation that keeps the order among equal signatures is
   * unique: any stable ordinal sort of `s` is `OrderByFullName(s)`.
   */
  lemma {:induction false} StableSortUnique(s: seq<CallbackDescription>, r: seq<CallbackDescription>)
    requires SortedByFullName(r) && multiset(r) == multiset(s)
    requires forall name :: WithFullName(r, name) == WithFullName(s, name)
    ensures r == OrderByFullName(s)
  {
    OrderByFullNameSorted(s);
    OrderByFullNamePermutes(s);
    forall name
      ensures WithFullName(r, name) == WithFullName(OrderByFullName(s), name)
    {
      OrderByFullNameStable(s, name);
    }
    SortedStableEqual(r, OrderByFullName(s));
  }

  lemma {:induction false} SortedStableEqual(r: seq<CallbackDescription>, q: seq<CallbackDescription>)
    requires SortedByFullName(r) && SortedByFullName(q) && multiset(r) == multiset(q)
    requires forall name :: WithFullName(r, name) == WithFullName(q, name)
    ensures r == q
  {
    if r == [] {
      assert |q| == |multiset(q)| == 0;
    } else {
      assert |q| == |multiset(q)| == |multiset(r)| == |r|;
      SortedStableHead(r, q);
      forall name
        ensures WithFullName(r[1..], name) == WithFullName(q[1..], name)
      {
        WithFullNameTail(r, q, name);
      }
      MultisetTail(r, q);
      SortedByFullNameTail(r);
      SortedByFullNameTail(q);
      SortedStableEqual(r[1..], q[1..]);
      assert r == [r[0]] + r[1..] && q == [q[0]] + q[1..];
    }
  }

  /** Two sorted lists with the same entries and the same order among equal signatures start alike. */
  lemma SortedStableHead(r: seq<CallbackDescription>, q: seq<CallbackDescription>)
    requires r != [] && q != []
    requires SortedByFullName(r) && SortedByFullName(q) && multiset(r) == multiset(q)
    requires forall name :: WithFullName(r, name) == WithFullName(q, name)
    ensures r[0] == q[0]
  {
    assert q[0] in multiset(r) && r[0] in multiset(q);
    var a := r[0].fullMethodName;
    var b := q[0].fullMethodName;
    var i :| 0 <= i < |r| && r[i] == q[0];
    var j :| 0 <= j < |q| && q[j] == r[0];
    if i > 0 { assert OrdinalLe(a, b); } else { OrdinalReflexive(a); }
    if j > 0 { assert OrdinalLe(b, a); } else { OrdinalReflexive(b); }
    OrdinalAntisymmetric(a, b);
    assert WithFullName(r, a) == WithFullName(q, a);
    assert WithFullName(r, a)[0] == r[0];
    assert WithFullName(q, a)[0] == q[0];
  }

  lemma WithFullNameTail(r: seq<CallbackDescription>, q: seq<CallbackDescription>, name: string)
    requires r != [] && q != [] && r[0] == q[0]
    requires WithFullName(r, name) == WithFullName(q, name)
    ensures WithFullName(r[1..], name) == WithFullName(q[1..], name)
  {
    var head := if r[0].fullMethodName == name then [r[0]] else [];
    assert (head + WithFullName(r[1..], name))[|head|..] == WithFullName(r[1..], name);
    assert (head + WithFullName(q[1..], name))[|head|..] == WithFullName(q[1..], name);
  }

  lemma MultisetTail(r: seq<CallbackDescription>, q: seq<CallbackDescription>)
    requires r != [] && q != [] && r[0] == q[0] && multiset(r) == multiset(q)
    ensures multiset(r[1..]) == multiset(q[1..])
  {
    assert r == [r[0]] + r[1..] && q == [q[0]] + q[1..];
    assert multiset(r[1..]) == multiset(r) - multiset{r[0]};
    assert multiset(q[1..]) == multiset(q) - multiset{q[0]};
  }

  lemma SortedByFullNameTail(r: seq<CallbackDescription>)
    requires r != [] && SortedByFullName(r)
    ensures SortedByFullName(r[1..])
  {
    forall i, j | 0 <= i < j < |r| - 1
      ensures OrdinalLe(r[1..][i].fullMethodName, r[1..][j].fullMethodName)
    {
      assert r[1..][i] == r[i + 1] && r[1..][j] == r[j + 1];
    }
  }

  // ---------------------------------------------------------------------------
  // What is in the catalog

  lemma {:induction false} DescribeAllMembers(declaring: TypeInfo, ms: seq<MethodInfo>, d: CallbackDescription)
    ensures d in DescribeAll(declaring, ms) <==> exists m :: m in ms && Describe(declaring, m) == Some(d)
  {
    if ms != [] {
      DescribeAllMembers(declaring, ms[1..], d);
      assert ms == [ms[0]] + ms[1..];
    }
  }

  lemma {:induction false} ChainMethodsMembers(chain: Behaviour, d: CallbackDescription)
    ensures d in ChainMethods(chain) <==> exists t :: t in Walked(chain) && d in DescribeAll(t, t.methods)
  {
    if chain != [] && !IsMonoBehaviour(chain[0]) {
      ChainMethodsMembers(chain[1..], d);
      assert Walked(chain) == [chain[0]] + Walked(chain[1..]);
    }
  }

  lemma {:induction false} CollectedFromMembers(behaviours: seq<Option<Behaviour>>, d: CallbackDescription)
    ensures d in CollectedFrom(behaviours) <==>
      exists k :: 0 <= k < |behaviours| && behaviours[k].Some? && d in ChainMethods(behaviours[k].value)
  {
    if behaviours != [] {
      CollectedFromMembers(behaviours[1..], d);
      if d in CollectedFrom(behaviours[1..]) {
        var k :| 0 <= k < |behaviours[1..]| && behaviours[1..][k].Some? && d in ChainMethods(behaviours[1..][k].value);
        assert behaviours[k + 1] == behaviours[1..][k];
      }
      if exists k :: 0 <= k < |behaviours| && behaviours[k].Some? && d in ChainMethods(behaviours[k].value) {
        var k :| 0 <= k < |behaviours| && behaviours[k].Some? && d in ChainMethods(behaviours[k].value);
        if k > 0 {
          assert behaviours[1..][k - 1] == behaviours[k];
        }
      }
    }
  }

  /**
   * An entry is in the catalog exactly when some non-null behaviour has a
   * walked type that declares a method describing to it.
   */
  lemma CatalogMembership(gameObject: GameObject, d: CallbackDescription)
    ensures d in OrderByFullName(Collected(gameObject)) <==>
      gameObject.Some? &&
      exists k, t, m :: 0 <= k < |gameObject.value| && gameObject.value[k].Some? && t in Walked(gameObject.value[k].value)
        && m in t.methods && Describe(t, m) == Some(d)
  {
    OrderByFullNamePermutes(Collected(gameObject));
    assert d in OrderByFullName(Collected(gameObject)) <==> d in multiset(Collected(gameObject));
    if gameObject.Some? {
      var bs := gameObject.value;
      CollectedFromMembers(bs, d);
      if d in CollectedFrom(bs) {
        var k :| 0 <= k < |bs| && bs[k].Some? && d in ChainMethods(bs[k].value);
        ChainMethodsMembers(bs[k].value, d);
        var t :| t in Walked(bs[k].value) && d in DescribeAll(t, t.methods);
        DescribeAllMembers(t, t.methods, d);
      }
      if exists k, t, m :: 0 <= k < |bs| && bs[k].Some? && t in Walked(bs[k].value) && m in t.methods && Describe(t, m) == Some(d) {
        var k, t, m :| 0 <= k < |bs| && bs[k].Some? && t in Walked(bs[k].value) && m in t.methods && Describe(t, m) == Some(d);
        DescribeAllMembers(t, t.methods, d);
        ChainMethodsMembers(bs[k].value, d);
      }
    }
  }

  /** A method that describes to an entry has all parameters supported, so the entry is representable. */
  lemma DescribedRepresentable(declaring: TypeInfo, m: MethodInfo)
    requires Describe(declaring, m).Some?
    ensures Representable(Describe(declaring, m).value)
    ensures |Describe(declaring, m).value.parameterTypes| == |m.parameters|
  {
  }

  /** The properties of the sorted catalog of a game object. */
  lemma CatalogFacts(gameObject: GameObject)
    ensures SortedByFullName(OrderByFullName(Collected(gameObject)))
    ensures multiset(OrderByFullName(Collected(gameObject))) == multiset(Collected(gameObject))
    ensures forall name :: WithFullName(OrderByFullName(Collected(gameObject)), name) == WithFullName(Collected(gameObject), name)
    ensures forall d :: d in OrderByFullName(Collected(gameObject)) ==> Representable(d)
  {
    var collected := Collected(gameObject);
    OrderByFullNameSorted(collected);
    OrderByFullNamePermutes(collected);
    forall name
      ensures WithFullName(OrderByFullName(collected), name) == WithFullName(collected, name)
    {
      OrderByFullNameStable(collected, name);
    }
    forall d | d in OrderByFullName(collected)
      ensures Representable(d)
    {
      CatalogMembership(gameObject, d);
      var k, t, m :| 0 <= k < |gameObject.value| && gameObject.value[k].Some? && t in Walked(gameObject.value[k].value)
        && m in t.methods && Describe(t, m) == Some(d);
      DescribedRepresentable(t, m);
    }
  }

  // ---------------------------------------------------------------------------
  // The builder

  /**
   * The methods `methodType` declares itself, in reflection order: append the
   * entry of each supported one to `supportedMethods`.
   */
  method CollectDeclared(methodType: TypeInfo, supportedMethods: seq<CallbackDescription>)
    returns (collected: seq<CallbackDescription>)
    ensures collected == supportedMethods + DescribeAll(methodType, methodType.methods)
  {
    collected := supportedMethods;
    var methods := methodType.methods;
    assert methods[0..] == methods;
    for k := 0 to |methods|
      invariant collected + DescribeAll(methodType, methods[k..]) == supportedMethods + DescribeAll(methodType, methods)
    {
      var supportedMethod := DescribeMethod(methodType, methods[k]);
      CollectDeclaredStep(methodType, methods, k, collected, supportedMethod);
      if supportedMethod.Some? {
        collected := collected + [supportedMethod.value];
      }
    }
    assert methods[|methods|..] == [];
  }

  /**
   * One behaviour: from its runtime type up through the base types, stopping
   * at `MonoBehaviour` or at the end of the chain.
   */
  method CollectBehaviour(chain: Behaviour, supportedMethods: seq<CallbackDescription>)
    returns (collected: seq<CallbackDescription>)
    ensures collected == supportedMethods + ChainMethods(chain)
  {
    collected := supportedMethods;
    var t := 0;
    while t < |chain| && !IsMonoBehaviour(chain[t])
      invariant 0 <= t <= |chain|
      invariant collected + ChainMethods(chain[t..]) == supportedMethods + ChainMethods(chain)
    {
      CollectBehaviourStep(chain, t, collected);
      collected := CollectDeclared(chain[t], collected);
      t := t + 1;
    }
  }

  /** Every behaviour in order; a null one is skipped. */
  method CollectBehaviours(behaviours: seq<Option<Behaviour>>) returns (supportedMethods: seq<CallbackDescription>)
    ensures supportedMethods == CollectedFrom(behaviours)
  {
    supportedMethods := [];
    assert behaviours[0..] == behaviours;
    for b := 0 to |behaviours|
      invariant supportedMethods + CollectedFrom(behaviours[b..]) == CollectedFrom(behaviours)
    {
      CollectedFromStep(behaviours, b, supportedMethods);
      if behaviours[b].None? {
        continue;
      }
      supportedMethods := CollectBehaviour(behaviours[b].value, supportedMethods);
    }
    assert behaviours[|behaviours|..] == [];
  }

  /**
   * The catalog of a game object: every supported method of every behaviour's
   * walked types, stably sorted by signature in ordinal order.
   */
  method CollectSupportedMethods(gameObject: GameObject) returns (result: seq<CallbackDescription>)
    ensures result == OrderByFullName(Collected(gameObject))
    ensures SortedByFullName(result)
    ensures multiset(result) == multiset(Collected(gameObject))
    ensures forall name :: WithFullName(result, name) == WithFullName(Collected(gameObject), name)
    ensures forall d :: d in result ==> Representable(d)
  {
    CatalogFacts(gameObject);
    if gameObject.None? {
      return [];
    }
    var supportedMethods := CollectBehaviours(gameObject.value);
    result := OrderByFullName(supportedMethods);
  }
}
