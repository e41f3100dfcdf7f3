# const-utils in Dafny

A model of the `const_utils` package: a helper library for "constant
classes", whose upper-case attributes count as named constants.

- `utils.dfy` (module `Utils`): the naming rule `is_const`. A name is a constant
  when it is an identifier, `isupper()` holds, and it does not start with `_`.
  `py_str.dfy` (module `PyStr`) gives the three Python `str` methods this rule uses,
  over ASCII. The main lemma shows that the rule is exactly the grammar
  `[A-Z][A-Z0-9_]*`.
- `utility_funcs.dfy` (module `UtilityFuncs`): the second copy of `is_const`, proved
  to agree with the first. Also `access_namespace_consts`, which keeps the
  constant-named entries of the caller's locals or globals.
- `const_class.dfy` (module `ConstClassMeta`): the metaclass.
  - Every class it builds is a `ConstClass<V>` object. The object holds the inherited
    attributes `base` (fixed), its own attributes `own`, and its entry `consts`
    in the constant cache.
  - `Valid()` is the cache invariant: every cached name is a constant name of an
    attribute the class can see, and every constant-named attribute the class
    itself defines is cached.
  - Creation, `__getitem__`, `__setattr__`, `__delattr__`, `as_dict`, `const_names`,
    `const_values` and `__apply` are members of the class.
  - `apply_to_module` and `apply` copy the constants into a `Namespace` target.
  - `ApplyResult` states what a target holds after `__apply`. Lemmas show it is a
    map union: the constants win with `override`, the target wins without it.
  - Three client methods replay the docstring's `MathConsts` example, a deletion,
    and the override behaviour of both apply modes.

Where the docstring and the code disagree, the model follows the code.
`__setattr__`'s docstring (`src/const_utils/const_class.py:56-58`) says that a
name is removed from the cache when its attribute is changed to a non-constant.
The code never removes a name on assignment (lines 60-64), and neither does `Set`.

## Model

| member | source | states |
|---|---|---|
| `Utils.IsConst` | src/const_utils/utils.py:4-11 | no contract: the conjunction of `isidentifier()`, `isupper()` and not `startswith('_')`; its meaning is fixed by `IsConstIffGrammar` |
| `Utils.IsConstIffGrammar` | src/const_utils/utils.py:4-11 | over ASCII, `is_const(s)` holds exactly when `s` is non-empty, starts with `A-Z`, and has only `A-Z`, `0-9` and `_` |
| `Utils.EmptyIsNotConst` | src/const_utils/utils.py:11 | the empty string is not a constant, because it is not an identifier |
| `Utils.UnderscorePrefixIsNotConst` | src/const_utils/utils.py:8-11 | a name starting with `_` is never a constant, whatever its case |
| `Utils.LowercaseIsNotConst` | src/const_utils/utils.py:7-11 | one lower-case letter anywhere in a name rules it out |
| `Utils.DigitPrefixIsNotConst` | src/const_utils/utils.py:9-11 | a name starting with a digit is not an identifier, so not a constant |
| `Utils.ForeignCharIsNotConst` | src/const_utils/utils.py:9-11 | a character other than a letter, a digit or `_` rules a name out |
| `Utils.NoLetterIsNotConst` | src/const_utils/utils.py:7-11 | a name without a letter is never a constant (`isupper` needs a cased character) |
| `Utils.SampleNames` | src/const_utils/utils.py:11 | `MAX_SIZE_2`, `PI`, `A1`, `E_` are constants; `1A`, `_PI`, `Pi`, `helper`, `MAX SIZE`, `___` are not |
| `UtilityFuncs.IsConst` | src/const_utils/utility_funcs.py:7-14 | no contract: the same conjunction as in `utils.py`; `IsConstAgrees` proves the two copies equal |
| `UtilityFuncs.IsConstAgrees` | src/const_utils/utility_funcs.py:7-14 | the copy of `is_const` in this file decides every string the same way as the one in `utils.py` |
| `UtilityFuncs.ConstEntries` | src/const_utils/utility_funcs.py:32 | the result keeps exactly the namespace entries with a constant name, each with the namespace's value |
| `UtilityFuncs.AccessNamespaceConsts` | src/const_utils/utility_funcs.py:17-32 | `local` defaults to false; the result's keys are the names of the chosen namespace (locals if `local`, else globals) matching `[A-Z][A-Z0-9_]*`; each value is that namespace's value |
| `UtilityFuncs.ConstEntriesIdempotent` | src/const_utils/utility_funcs.py:32 | filtering an already filtered namespace returns it unchanged |
| `ConstClassMeta.ConstClass.Attrs` | src/const_utils/const_class.py:44 | what `getattr(cls, name)` sees (also at lines 81 and 95): exactly the own and inherited names, an own attribute shadowing an inherited one |
| `ConstClassMeta.ConstClass.constructor` | src/const_utils/const_class.py:31-38 | after creation the cache is exactly the set of visible (own or inherited) names that are constants, and the cache invariant holds |
| `ConstClassMeta.ConstClass.Get` | src/const_utils/const_class.py:40-49 | lookup succeeds exactly for cached names and returns the live value that `getattr` sees; otherwise it fails with the unknown-constant error carrying the cached names |
| `ConstClassMeta.ConstClass.AsDict` | src/const_utils/const_class.py:76-81 | the keys are exactly the cached names, all of them constants, and include every constant-named attribute the class itself defines; each value is what item lookup returns for that name |
| `ConstClassMeta.Order` | src/const_utils/const_class.py:81 | set iteration visits every element of the set exactly once |
| `ConstClassMeta.ConstClass.ConstNames` | src/const_utils/const_class.py:83-86 | the list has as many names as the cache, no duplicates, and exactly the cached names |
| `ConstClassMeta.ConstClass.ConstValues` | src/const_utils/const_class.py:88-91 | the list is as long as `const_names`, and its i-th value is what lookup returns for the i-th name |
| `ConstClassMeta.ConstClass.Set` | src/const_utils/const_class.py:51-64 | the attribute holds the new value; a constant name joins the cache and looks up to the new value; a non-constant name leaves the cache unchanged; no name ever leaves the cache; the invariant is kept |
| `ConstClassMeta.ConstClass.Del` | src/const_utils/const_class.py:66-74 | deleting an own attribute removes it and drops its name from the cache, keeping every other cached name, so lookup then fails; deleting a name the class does not own fails with AttributeError and changes nothing; an inherited attribute it shadowed stays visible but uncached |
| `ConstClassMeta.Exists` | src/const_utils/const_class.py:96 | no contract: key membership in module mode; membership in the attribute set of a `dict` in scope mode as written; key membership for the intended scope check |
| `ConstClassMeta.ApplyResult` | src/const_utils/const_class.py:93-98 | each constant is written when `override` is set or the existence check fails; otherwise, and for every other name, the target's entry is unchanged |
| `ConstClassMeta.ApplyStep` | src/const_utils/const_class.py:94-98 | one turn of the loop: the existence check on the partly written target answers as on the original target, and the written target is the specification with one more constant |
| `ConstClassMeta.ConstClass.ApplyTo` | src/const_utils/const_class.py:93-98 | the target ends as `ApplyResult` of the class's constants and the original target; the class and its cache are unchanged |
| `ConstClassMeta.ConstClass.ApplyToModule` | src/const_utils/const_class.py:100-109 | applying to a module uses module attribute existence: the module ends as `ApplyResult` with that check; `override` defaults to false |
| `ConstClassMeta.ConstClass.Apply` | src/const_utils/const_class.py:111-134 | the chosen frame namespace (locals if `local`, else globals) ends as `ApplyResult` with the check `hasattr(dict, name)`, as written; `local` and `override` default to false |
| `ConstClassMeta.ConstClass.ApplyIntended` | src/const_utils/const_class.py:111-134 | the same with the check `name in dict` that the docstring describes |
| `ConstClassMeta.OverrideWritesAll` | src/const_utils/const_class.py:96-98 | with `override`, the target afterwards is the target overlaid with all constants |
| `ConstClassMeta.NoOverrideKeepsExisting` | src/const_utils/const_class.py:96-109 | without `override` and with a check on the target's own names, every existing entry is kept and only missing constants are added |
| `ConstClassMeta.NoDictAttributeIsConst` | src/const_utils/const_class.py:96 | no attribute of a `dict` object is a constant name |
| `ConstClassMeta.ScopeApplyIgnoresOverride` | src/const_utils/const_class.py:96-134 | in scope mode as written, `override=False` still overwrites every constant in the namespace |
| `ConstClassMeta.ScopeApplyOverwritesExisting` | src/const_utils/const_class.py:96-134 | a namespace holding `PI = 0` gets `PI = 3.14159` from scope-mode apply without override; the intended key check keeps `0` |

## Left out

- Frame introspection (`inspect.currentframe`, `f_back`, `f_locals`, `f_globals`) is not modelled: callers pass both namespaces in. So the `RuntimeError` for a missing frame has no counterpart.
- Writes into a function frame's `f_locals` dict that CPython (up to 3.12) does not carry back into the function's local variables are not modelled. The namespace is treated as an ordinary dict. This describes CPython up to 3.12; from 3.13 `f_locals` of a function frame is a write-through proxy, which has no constant-named attribute either.
- `importlib.import_module` is not modelled: the module is given as its attribute map, and import errors are out of scope. Module attributes that come from the module type itself are all dunder names, so they are left out; none of them is a constant. A module-level `__getattr__`, which `hasattr(module, name)` also consults, is not modelled: module existence is key membership.
- The process-wide cache keyed by class identity, and its lifetime, are not modelled: each class object owns its cache entry.
- `type.__new__`, `super().__setattr__`, `dir()` and the MRO are not modelled. Visible attributes are the class's own attributes over a fixed map of inherited ones, and the cache invariant is per class. A deletion on a base class that leaves a subclass's cache stale is not modelled.
- Errors that `type.__setattr__` and `type.__delattr__` raise for special attributes (such as `__dict__`) are not modelled. Deleting a name the class does not own is modelled.
- Unicode identifiers and case rules are not modelled: a non-ASCII character counts as neither a letter nor a digit. Python accepts, for example, `É` as a constant name; the model does not.
- Attribute values are an opaque type parameter. The model does no arithmetic on them.
- The wording of the `ValueError` message, and the order in which it lists names, are not modelled. The error carries the set of cached names.
- The order of set iteration is not modelled beyond this: one fixed, unspecified order per set (`Order`). So `ConstNames` and `ConstValues` are ghost functions.
- `src/const_utils/namespace_consts.py` is not part of this model. It is an unfinished stub with a broken import and no filtering.
- Concurrency is not modelled: the library is single-threaded.

## Findings

| source | as written | input that shows it | evidently intended | confidence | as-written member | corrected member |
|---|---|---|---|---|---|---|
| src/const_utils/const_class.py:96 | in scope mode (`apply`, line 134) the namespace is a dict, and `hasattr(namespace, name)` asks about the dict object's attributes, which are all lower-case or dunder names, so the check is false for every constant and `override=False` overwrites existing names | a class with `PI = 3.14159` and `apply(override=False)` from a scope that holds `PI = 0`: `PI` becomes `3.14159` | existing names in the scope are kept unless `override` is set (docstring, lines 118-122), i.e. `name in namespace` | high (not executed) | `ConstClassMeta.ScopeApplyOverwritesExisting` | `ConstClassMeta.NoOverrideKeepsExisting` |
