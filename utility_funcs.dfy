/**
 * `src/const_utils/utility_funcs.py`: a second copy of the naming rule and
 * `access_namespace_consts`, which keeps the constant-named entries of the
 * caller's local or global namespace. The caller's frame is not modelled:
 * both of its namespaces are passed in.
 */
module UtilityFuncs {
  import opened PyStr
  import Utils

  /** The copy of `is_const` in this file. */
  predicate IsConst(name: string) {
    IsIdentifier(name) && IsUpper(name) && !StartsWith(name, "_")
  }

  /** The two copies of the naming rule decide every string alike. */
  lemma IsConstAgrees(name: string)
    ensures IsConst(name) == Utils.IsConst(name)
  {
  }

  /** The dict comprehension: the entries of `namespace` whose name is a constant. */
  function ConstEntries<V>(namespace: map<string, V>): (r: map<string, V>)
    ensures forall n :: n in r <==> n in namespace && IsConst(n)
    ensures forall n :: n in r ==> r[n] == namespace[n]
  {
    map n | n in namespace && IsConst(n) :: namespace[n]
  }

  /** `access_namespace_consts(local)`, with the caller's two namespaces given. */
  function AccessNamespaceConsts<V>(frameLocals: map<string, V>, frameGlobals: map<string, V>, local: bool := false)
    : (r: map<string, V>)
    ensures var namespace := if local then frameLocals else frameGlobals;
      && (forall n :: n in r <==> n in namespace && Utils.ConstGrammar(n))
      && (forall n :: n in r ==> r[n] == namespace[n])
  {
    var namespace := if local then frameLocals else frameGlobals;
    var r := ConstEntries(namespace);
    assert forall n :: n in r <==> n in namespace && Utils.ConstGrammar(n) by {
      forall n ensures IsConst(n) <==> Utils.ConstGrammar(n) {
        Utils.IsConstIffGrammar(n);
      }
    }
    r
  }

  /** Filtering an already filtered namespace changes nothing. */
  lemma ConstEntriesIdempotent<V>(namespace: map<string, V>)
    ensures ConstEntries(ConstEntries(namespace)) == ConstEntries(namespace)
  {
  }
}
