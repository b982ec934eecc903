/**
 * The two string operations the tools rely on: cutting a type name at its
 * first comma (`s.Split(",")[0]`) and ordinal comparison
 * (`StringComparer.Ordinal`).
 */
module Strings {

  /**
   * The part of `s` before its first comma, or all of `s` when it has none:
   * the first element of `s.Split(",")`.
   */
  function BeforeComma(s: string): (r: string)
    ensures r <= s
    ensures ',' !in r
    ensures r == s || s[|r|] == ','
  {
    if s == [] || s[0] == ',' then [] else [s[0]] + BeforeComma(s[1..])
  }

  /** A qualifier after a comma is ignored: `"Foo,AssemblyX"` cuts to `"Foo"`, as `"Foo"` does. */
  lemma {:induction false} BeforeCommaDropsQualifier(name: string, qualifier: string)
    requires ',' !in name
    ensures BeforeComma(name + "," + qualifier) == name
    ensures BeforeComma(name) == name
  {
    if name != [] {
      assert (name + "," + qualifier)[1..] == name[1..] + "," + qualifier;
      BeforeCommaDropsQualifier(name[1..], qualifier);
    }
  }

  /**
   * Ordinal order: strings compared character by character by code, a proper
   * prefix before the longer string.
   */
  predicate OrdinalLe(a: string, b: string)
  {
    if a == [] then true
    else if b == [] then false
    else if a[0] != b[0] then a[0] < b[0]
    else OrdinalLe(a[1..], b[1..])
  }

  lemma {:induction false} OrdinalReflexive(a: string)
    ensures OrdinalLe(a, a)
  {
    if a != [] {
      OrdinalReflexive(a[1..]);
    }
  }

  lemma {:induction false} OrdinalTotal(a: string, b: string)
    ensures OrdinalLe(a, b) || OrdinalLe(b, a)
  {
    if a != [] && b != [] && a[0] == b[0] {
      OrdinalTotal(a[1..], b[1..]);
    }
  }

  lemma {:induction false} OrdinalAntisymmetric(a: string, b: string)
    requires OrdinalLe(a, b) && OrdinalLe(b, a)
    ensures a == b
  {
    if a != [] && b != [] {
      OrdinalAntisymmetric(a[1..], b[1..]);
      assert a == [a[0]] + a[1..];
      assert b == [b[0]] + b[1..];
    }
  }

  lemma {:induction false} OrdinalTransitive(a: string, b: string, c: string)
    requires OrdinalLe(a, b) && OrdinalLe(b, c)
    ensures OrdinalLe(a, c)
  {
    if a != [] && b != [] && c != [] && a[0] == b[0] && b[0] == c[0] {
      OrdinalTransitive(a[1..], b[1..], c[1..]);
    }
  }
}
