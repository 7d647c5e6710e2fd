// The code generator's map from local names to their storage, one hash map
// per block scope. The stored values are the generator's own and are kept
// abstract.
module VariableResolvers {
  import opened Basics
  import opened Environments

  /** VariableResolver: a stack of scopes, innermost last, binding names to values of type V. */
  class VariableResolver<V> {
    var scopes: seq<map<string, V>>

    constructor ()
      ensures scopes == []
    {
      scopes := [];
    }

    /**
     * get: the value bound in the innermost scope that binds the name. The
     * source asserts when no scope binds it, so callers must bind it first.
     */
    method Get(name: string) returns (r: V)
      requires exists i :: 0 <= i < |scopes| && name in scopes[i]
      ensures Innermost(scopes, name) == Some(r)
      ensures forall i :: InnermostAt(scopes, name, i) ==> r == scopes[i][name]
    {
      InnermostFinds(scopes, name);
      var i := |scopes|;
      assert scopes[..i] == scopes;
      while i > 0
        invariant 0 <= i <= |scopes|
        invariant Innermost(scopes, name) == Innermost(scopes[..i], name)
        decreases i
      {
        if name in scopes[i - 1] {
          return scopes[i - 1][name];
        }
        assert scopes[..i][..i - 1] == scopes[..i - 1];
        i := i - 1;
      }
      assert false;
    }

    /** set: emplaces into the innermost scope, so a name that scope binds already keeps its old value. */
    method Set(name: string, value: V)
      requires |scopes| > 0
      modifies this
      ensures |scopes| == |old(scopes)| && scopes[..|scopes| - 1] == old(scopes)[..|scopes| - 1]
      ensures scopes[|scopes| - 1] == Emplace(old(scopes)[|scopes| - 1], name, value)
    {
      var last := |scopes| - 1;
      scopes := scopes[last := Emplace(scopes[last], name, value)];
    }

    /** enter_scope: pushes an empty scope. */
    method EnterScope()
      modifies this
      ensures scopes == old(scopes) + [map[]]
    {
      scopes := scopes + [map[]];
    }

    /** leave_scope: pops the innermost scope, so what it shadowed is visible again. */
    method LeaveScope()
      requires |scopes| > 0
      modifies this
      ensures scopes == old(scopes)[..|old(scopes)| - 1]
    {
      scopes := scopes[..|scopes| - 1];
    }
  }

  /**
   * A value set in a fresh scope is what get finds until the scope is left,
   * and leaving it makes the outer binding, if any, visible again.
   */
  lemma {:induction false} SetInFreshScope<V>(scopes: seq<map<string, V>>, name: string, value: V)
    ensures Innermost(scopes + [Emplace(map[], name, value)], name) == Some(value)
    ensures (scopes + [Emplace(map[], name, value)])[..|scopes|] == scopes
  {
    InnermostShadows(scopes, Emplace(map[], name, value), name);
  }

  /** A second set of the same name in the same scope does not change what get finds. */
  lemma {:induction false} SetKeepsFirst<V>(scopes: seq<map<string, V>>, inner: map<string, V>, name: string, value: V)
    requires name in inner
    ensures Innermost(scopes + [Emplace(inner, name, value)], name) == Some(inner[name])
  {
    InnermostShadows(scopes, Emplace(inner, name, value), name);
  }
}
