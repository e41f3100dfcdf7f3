/**
 * `ConstClassMeta` of `src/const_utils/const_class.py`: every class built by
 * the metaclass owns a cache of the names of its attributes that are
 * constants, kept up to date when attributes are set or deleted, and read
 * through item lookup, `as_dict`, `const_names`, `const_values` and `apply`.
 *
 * The process-wide cache keyed by class identity becomes a field of each
 * class object. What `getattr` sees on the class is its own attributes over
 * a fixed map of attributes inherited from its bases.
 */
module ConstClassMeta {
  import PyStr
  import opened Utils

  datatype Error =
    | UnknownConstant(name: string, available: set<string>)  // the ValueError of item lookup
    | NoSuchAttribute(name: string)                          // the AttributeError of deletion

  datatype Result<T> = Ok(value: T) | Err(error: Error)

  datatype Outcome = Pass | Fail(error: Error)

  /**
   * The order in which Python iterates over a set: unspecified, but the same
   * every time for the same set. Modelled as a fixed choice of an element.
   */
  ghost function Order(s: set<string>): (r: seq<string>)
    ensures |r| == |s|
    ensures forall n :: n in r <==> n in s
    ensures forall i, j :: 0 <= i < j < |r| ==> r[i] != r[j]
    decreases s
  {
    if s == {} then []
    else
      var n :| n in s;
      [n] + Order(s - {n})
  }

  /** The part of `d` whose keys are in `keys`. */
  function Restrict<V>(d: map<string, V>, keys: set<string>): (r: map<string, V>)
    ensures r.Keys == d.Keys * keys
    ensures forall n :: n in r ==> r[n] == d[n]
  {
    map n | n in d && n in keys :: d[n]
  }

  /**
   * How `__apply` asks whether a target already has a name:
   * `hasattr(module, name)` on a module in module mode, `hasattr(d, name)` on
   * the namespace dict `d` in scope mode (as written), or `name in d` (what
   * scope mode evidently intends).
   */
  datatype ExistenceCheck = ModuleHasAttr | DictHasAttr | DictHasKey

  /** The attributes of a Python `dict` object (CPython 3.11 and later). */
  const DictAttributes: set<string> := DictSpecialMethods + DictMethods

  const DictSpecialMethods: set<string> := {
    "__class__", "__class_getitem__", "__contains__", "__delattr__", "__delitem__",
    "__dir__", "__doc__", "__eq__", "__format__", "__ge__", "__getattribute__",
    "__getitem__", "__getstate__", "__gt__", "__hash__", "__init__",
    "__init_subclass__", "__ior__", "__iter__", "__le__", "__len__", "__lt__",
    "__ne__", "__new__", "__or__", "__reduce__", "__reduce_ex__", "__repr__",
    "__reversed__", "__ror__", "__setattr__", "__setitem__", "__sizeof__",
    "__str__", "__subclasshook__"
  }

  const DictMethods: set<string> := {
    "clear", "copy", "fromkeys", "get", "items", "keys", "pop", "popitem",
    "setdefault", "update", "values"
  }

  /** Does the target, whose entries are `entries`, already have `name`? */
  predicate Exists<V>(check: ExistenceCheck, entries: map<string, V>, name: string) {
    match check
    case ModuleHasAttr => name in entries
    case DictHasAttr => name in DictAttributes
    case DictHasKey => name in entries
  }

  /** No attribute of a dict is a constant name. */
  lemma NoDictAttributeIsConst(name: string)
    requires name in DictAttributes
    ensures !IsConst(name)
  {
    if name in DictSpecialMethods {
      assert |name| > 0 && name[0] == '_';
      UnderscorePrefixIsNotConst(name);
    } else {
      LowercaseIsNotConst(name, 0);
    }
  }

  /** Whether `__apply` writes the class value of `name` (lines 96-98). */
  predicate Writes<V>(d: map<string, V>, target: map<string, V>, overrides: bool, check: ExistenceCheck, name: string) {
    name in d && (overrides || !Exists(check, target, name))
  }

  /**
   * The target after `__apply` has copied the constants `d` into it: every
   * constant is written unless `overrides` is off and the target already
   * has the name; everything else is left as it was.
   */
  function ApplyResult<V>(d: map<string, V>, target: map<string, V>, overrides: bool, check: ExistenceCheck)
    : (r: map<string, V>)
    ensures forall n :: Writes(d, target, overrides, check, n) ==> n in r && r[n] == d[n]
    ensures forall n :: !Writes(d, target, overrides, check, n) ==>
      (n in r <==> n in target) && (n in r ==> r[n] == target[n])
  {
    map n | n in target.Keys + d.Keys && (n in target || Writes(d, target, overrides, check, n)) ::
      if Writes(d, target, overrides, check, n) then d[n] else target[n]
  }

  /** One more constant handled by the loop of `__apply`. */
  lemma ApplyStep<V>(d: map<string, V>, done: set<string>, target: map<string, V>, overrides: bool,
                     check: ExistenceCheck, name: string)
    requires name in d && name !in done
    ensures var cur := ApplyResult(Restrict(d, done), target, overrides, check);
      && Exists(check, cur, name) == Exists(check, target, name)
      && ApplyResult(Restrict(d, done + {name}), target, overrides, check)
         == if Writes(d, target, overrides, check, name) then cur[name := d[name]] else cur
  {
    var cur := ApplyResult(Restrict(d, done), target, overrides, check);
    var next := ApplyResult(Restrict(d, done + {name}), target, overrides, check);
    assert !Writes(Restrict(d, done), target, overrides, check, name);
    var expected := if Writes(d, target, overrides, check, name) then cur[name := d[name]] else cur;
    forall n ensures n in next <==> n in expected {
      assert Writes(Restrict(d, done + {name}), target, overrides, check, n)
        <==> Writes(Restrict(d, done), target, overrides, check, n) || (n == name && Writes(d, target, overrides, check, name));
    }
    forall n | n in next ensures next[n] == expected[n] {
      assert Writes(Restrict(d, done + {name}), target, overrides, check, n)
        <==> Writes(Restrict(d, done), target, overrides, check, n) || (n == name && Writes(d, target, overrides, check, name));
    }
  }

  /** With `override` set, applying is a map union in which the constants win. */
  lemma OverrideWritesAll<V>(d: map<string, V>, target: map<string, V>, check: ExistenceCheck)
    ensures ApplyResult(d, target, true, check) == target + d
  {
  }

  /**
   * Without `override`, a check that looks at the target's own entries keeps
   * every existing entry: applying is a map union in which the target wins.
   */
  lemma NoOverrideKeepsExisting<V>(d: map<string, V>, target: map<string, V>, check: ExistenceCheck)
    requires check == ModuleHasAttr || check == DictHasKey
    ensures ApplyResult(d, target, false, check) == d + target
  {
  }

  /**
   * In scope mode as written, `hasattr` on the namespace dict never finds a
   * constant name, so `override` makes no difference: existing entries are
   * overwritten either way.
   */
  lemma ScopeApplyIgnoresOverride<V>(d: map<string, V>, target: map<string, V>)
    requires forall n :: n in d ==> IsConst(n)
    ensures ApplyResult(d, target, false, DictHasAttr) == target + d
  {
    forall n | n in d ensures Writes(d, target, false, DictHasAttr, n) {
      if n in DictAttributes {
        NoDictAttributeIsConst(n);
      }
    }
    OverrideWritesAll(d, target, DictHasAttr);
  }

  /**
   * A scope that already holds `PI = 0` gets `PI = 3.14159` from
   * `apply(override=False)` as written; the intended check keeps `0`.
   */
  lemma ScopeApplyOverwritesExisting()
    ensures ApplyResult(map["PI" := 3.14159], map["PI" := 0.0], false, DictHasAttr)["PI"] == 3.14159
    ensures ApplyResult(map["PI" := 3.14159], map["PI" := 0.0], false, DictHasKey)["PI"] == 0.0
  {
    assert "PI" !in DictAttributes by {
      SampleNames();
      if "PI" in DictAttributes {
        NoDictAttributeIsConst("PI");
      }
    }
  }

  /** A target namespace: the attribute dict of a module, or a frame's locals or globals. */
  class Namespace<V> {
    var entries: map<string, V>

    constructor (entries: map<string, V>)
      ensures this.entries == entries
    {
      this.entries := entries;
    }
  }

  /** A class created by `ConstClassMeta`, with its entry in the constant cache. */
  class ConstClass<V> {
    /** Attributes inherited from the bases. */
    const base: map<string, V>
    /** The class's own attributes. */
    var own: map<string, V>
    /** The class's entry in `_class_constant_cache`. */
    var consts: set<string>

    /** What `getattr(cls, name)` finds: own attributes shadow inherited ones. */
    function Attrs(): (attrs: map<string, V>)
      reads this
      ensures forall n :: n in attrs <==> n in own || n in base
      ensures forall n :: n in own ==> attrs[n] == own[n]
      ensures forall n :: n !in own && n in base ==> attrs[n] == base[n]
    {
      base + own
    }

    /**
     * Every cached name is a constant name of a visible attribute, and every
     * constant-named attribute the class itself defines is cached.
     */
    ghost predicate Valid()
      reads this
    {
      && consts <= Attrs().Keys
      && (forall n :: n in consts ==> IsConst(n))
      && (forall n :: n in own && IsConst(n) ==> n in consts)
    }

    /** `__new__`: the cache holds the visible names that are constants (lines 35-37). */
    constructor (base: map<string, V>, own: map<string, V>)
      ensures Valid()
      ensures this.base == base && this.own == own
      ensures forall n :: n in consts <==> (n in base || n in own) && IsConst(n)
    {
      this.base := base;
      this.own := own;
      consts := set n | n in (base + own).Keys && IsConst(n);
    }

    /** `cls[name]`: the live value of a cached constant, or the ValueError. */
    function Get(name: string): (r: Result<V>)
      reads this
      requires Valid()
      ensures r.Ok? <==> name in consts
      ensures r.Ok? ==> IsConst(name) && name in Attrs() && r.value == Attrs()[name]
      ensures r.Err? ==> r.error == UnknownConstant(name, consts)
    {
      if name in consts then Ok(Attrs()[name]) else Err(UnknownConstant(name, consts))
    }

    /** `as_dict()`: every cached constant with its live value. */
    function AsDict(): (d: map<string, V>)
      reads this
      requires Valid()
      ensures d.Keys == consts
      ensures forall n :: n in own && IsConst(n) ==> n in d
      ensures forall n :: n in d ==> IsConst(n) && Get(n) == Ok(d[n])
    {
      map n | n in consts :: Attrs()[n]
    }

    /** `const_names`: the keys of `as_dict()` in iteration order. */
    ghost function ConstNames(): (names: seq<string>)
      reads this
      requires Valid()
      ensures |names| == |consts|
      ensures forall n :: n in names <==> n in consts
      ensures forall i, j :: 0 <= i < j < |names| ==> names[i] != names[j]
    {
      Order(AsDict().Keys)
    }

    /** `const_values`: the values of `as_dict()`, in the order of `const_names`. */
    ghost function ConstValues(): (values: seq<V>)
      reads this
      requires Valid()
      ensures |values| == |ConstNames()|
      ensures forall i :: 0 <= i < |values| ==> Get(ConstNames()[i]) == Ok(values[i])
    {
      var d := AsDict();
      var names := Order(d.Keys);
      seq(|names|, i requires 0 <= i < |names| => d[names[i]])
    }

    /**
     * `__setattr__`: store the value, then cache the name if it is a
     * constant. A cached name is never dropped here (lines 60-64).
     */
    method Set(name: string, value: V)
      requires Valid()
      modifies this
      ensures Valid()
      ensures own == old(own)[name := value]
      ensures consts == if IsConst(name) then old(consts) + {name} else old(consts)
      ensures Attrs()[name] == value
      ensures IsConst(name) ==> Get(name) == Ok(value)
    {
      own := own[name := value];
      if IsConst(name) && name !in consts {
        consts := consts + {name};
      }
    }

    /**
     * `__delattr__`: delete an own attribute and drop its name from the
     * cache; deleting a name the class does not own raises AttributeError
     * and changes nothing (lines 71-74).
     */
    method Del(name: string) returns (r: Outcome)
      requires Valid()
      modifies this
      ensures Valid()
      ensures r == if name in old(own) then Pass else Fail(NoSuchAttribute(name))
      ensures r.Pass? ==> own == old(own) - {name} && consts == old(consts) - {name}
      ensures r.Pass? ==> Get(name) == Err(UnknownConstant(name, consts))
      ensures r.Pass? && name in base ==> name in Attrs() && name !in consts
      ensures r.Fail? ==> own == old(own) && consts == old(consts)
    {
      if name !in own {
        return Fail(NoSuchAttribute(name));
      }
      own := own - {name};
      if name in consts {
        consts := consts - {name};
      }
      r := Pass;
    }

    /** `__apply`: copy each cached constant into `ns` (lines 93-98). */
    method ApplyTo(ns: Namespace<V>, overrides: bool, check: ExistenceCheck)
      requires Valid()
      modifies ns
      ensures unchanged(this)
      ensures ns.entries == ApplyResult(AsDict(), old(ns.entries), overrides, check)
    {
      ghost var d := AsDict();
      ghost var target := ns.entries;
      var todo := consts;
      ghost var done: set<string> := {};
      while todo != {}
        invariant todo <= d.Keys && done == d.Keys - todo
        invariant ns.entries == ApplyResult(Restrict(d, done), target, overrides, check)
        decreases todo
      {
        var name :| name in todo;
        var value := Attrs()[name];
        assert value == d[name];
        ApplyStep(d, done, target, overrides, check, name);
        ghost var next := ApplyResult(Restrict(d, done + {name}), target, overrides, check);
        assert (overrides || !Exists(check, ns.entries, name)) == Writes(d, target, overrides, check, name);
        if overrides || !Exists(check, ns.entries, name) {
          ns.entries := ns.entries[name := value];
        }
        assert ns.entries == next;
        todo := todo - {name};
        done := done + {name};
      }
      assert Restrict(d, done) == d;
    }

    /** `apply_to_module(module_name, override)`, with the imported module given. */
    method ApplyToModule(target: Namespace<V>, overrides: bool := false)
      requires Valid()
      modifies target
      ensures target.entries == ApplyResult(AsDict(), old(target.entries), overrides, ModuleHasAttr)
    {
      ApplyTo(target, overrides, ModuleHasAttr);
    }

    /**
     * `apply(local, override)` as written, with the caller's frame
     * namespaces given: existence is asked of the dict object's attributes.
     */
    method Apply(frameLocals: Namespace<V>, frameGlobals: Namespace<V>, local: bool := false, overrides: bool := false)
      requires Valid()
      modifies if local then frameLocals else frameGlobals
      ensures var ns := if local then frameLocals else frameGlobals;
        ns.entries == ApplyResult(AsDict(), old(ns.entries), overrides, DictHasAttr)
    {
      var ns := if local then frameLocals else frameGlobals;
      ApplyTo(ns, overrides, DictHasAttr);
    }

    /** `apply(local, override)` as evidently intended: existence is key membership. */
    method ApplyIntended(frameLocals: Namespace<V>, frameGlobals: Namespace<V>, local: bool := false, overrides: bool := false)
      requires Valid()
      modifies if local then frameLocals else frameGlobals
      ensures var ns := if local then frameLocals else frameGlobals;
        ns.entries == ApplyResult(AsDict(), old(ns.entries), overrides, DictHasKey)
    {
      var ns := if local then frameLocals else frameGlobals;
      ApplyTo(ns, overrides, DictHasKey);
    }
  }

  /**
   * The `MathConsts` example of the metaclass docstring (lines 15-22), with a
   * non-constant attribute beside the constants, replayed on the model.
   */
  method MathConstsExample() {
    var math := new ConstClass<real>(map[], map["PI" := 3.14159, "E" := 2.71828, "helper" := 0.0]);
    IsConstIffGrammar("PI");
    IsConstIffGrammar("E");
    LowercaseIsNotConst("helper", 0);
    assert math.consts == {"PI", "E"} by {
      forall n ensures n in math.consts <==> n == "PI" || n == "E" {
        assert n in math.own <==> n == "PI" || n == "E" || n == "helper";
      }
    }
    assert math.Get("PI") == Ok(3.14159);
    assert math.Get("helper").Err?;
  }

  /** A new constant is picked up, and a new value is seen by the next lookup. */
  method UpdateExample() {
    var math := new ConstClass<real>(map[], map["PI" := 3.14159]);
    IsConstIffGrammar("PI");
    IsConstIffGrammar("NA");
    math.Set("NA", 602214080000000000000000.0);
    math.Set("PI", 3.0);
    assert math.Get("NA") == Ok(602214080000000000000000.0);
    assert math.Get("PI") == Ok(3.0);
  }

  /** Deleting a constant makes its lookup fail; deleting it again raises. */
  method DeleteExample() {
    var math := new ConstClass<real>(map[], map["PI" := 3.14159]);
    IsConstIffGrammar("PI");
    assert math.Get("PI") == Ok(3.14159);
    var r := math.Del("PI");
    assert r == Pass;
    assert math.Get("PI").Err?;
    var missing := math.Del("PI");
    assert missing == Fail(NoSuchAttribute("PI"));
  }

  /**
   * `apply_to_module` keeps a module's own `PI` without override and
   * replaces it with override; `apply` as written replaces it either way.
   */
  method ApplyExample() {
    var math := new ConstClass<real>(map[], map["PI" := 3.14159]);
    IsConstIffGrammar("PI");
    ghost var consts := math.AsDict();
    assert consts == map["PI" := 3.14159];

    var mod := new Namespace(map["PI" := 0.0]);
    math.ApplyToModule(mod);
    NoOverrideKeepsExisting(consts, map["PI" := 0.0], ModuleHasAttr);
    assert mod.entries == map["PI" := 0.0];
    math.ApplyToModule(mod, true);
    OverrideWritesAll(consts, map["PI" := 0.0], ModuleHasAttr);
    assert mod.entries == map["PI" := 3.14159];

    var scope := new Namespace(map["PI" := 0.0]);
    math.Apply(scope, scope);
    ScopeApplyIgnoresOverride(consts, map["PI" := 0.0]);
    assert scope.entries == map["PI" := 3.14159];
  }
}
