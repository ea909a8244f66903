/**
 * The test-type registry (TestTypeRegistry): one shared instance, created on
 * first use, holding a mutable dictionary from test-type name to
 * implementation, seeded with the built-in S-Parameters test type.
 */
module Registry {
  import opened Exceptions

  /**
   * A registered implementation. The S-parameter test type is the one this model
   * evaluates; any other is known only by its name and description.
   */
  datatype TestType = SParametersTestType | OtherTestType(name: string, description: string)

  const SParametersName: string := "S-Parameters"

  /** The `name` property the registry keys its entries by. */
  function Name(t: TestType): string
  {
    match t
    case SParametersTestType => SParametersName
    case OtherTestType(n, _) => n
  }

  class TestTypeRegistry {
    /** The dictionary's keys in insertion order (what `keys()` iterates). */
    var names: seq<string>
    /** The dictionary itself. */
    var types: map<string, TestType>

    /** Keys listed once each and exactly the keys of the dictionary; nothing removes S-Parameters. */
    ghost predicate Valid()
      reads this
    {
      && SParametersName in types
      && (forall i, j :: 0 <= i < j < |names| ==> names[i] != names[j])
      && (forall n :: n in names <==> n in types)
      && (forall n :: n in types ==> Name(types[n]) == n)
    }

    /** `__new__` on first use: `_initialize` registers the S-Parameters test type. */
    constructor ()
      ensures Valid()
      ensures names == [SParametersName] && types == map[SParametersName := SParametersTestType]
    {
      names := [SParametersName];
      types := map[SParametersName := SParametersTestType];
    }

    /** `register`: the entry is stored under its name, replacing an entry of that name in place. */
    method Register(t: TestType)
      requires Valid()
      modifies this
      ensures Valid()
      ensures types == old(types)[Name(t) := t]
      ensures names == if Name(t) in old(types) then old(names) else old(names) + [Name(t)]
      ensures Get(Name(t)) == Some(t)
      ensures forall n :: n != Name(t) ==> Get(n) == old(Get(n))
    {
      if Name(t) !in types {
        names := names + [Name(t)];
      }
      types := types[Name(t) := t];
    }

    /** `get`: the entry registered under `name`, or None. */
    function Get(name: string): (r: Option<TestType>)
      reads this
      requires Valid()
      ensures r.Some? <==> IsRegistered(name)
      ensures r.Some? ==> Name(r.value) == name
    {
      if name in types then Some(types[name]) else None
    }

    /** `is_registered`: the registered names are the listed ones, and S-Parameters is always among them. */
    predicate IsRegistered(name: string)
      reads this
      ensures Valid() ==> (IsRegistered(name) <==> name in names)
      ensures Valid() && name == SParametersName ==> IsRegistered(name)
    {
      name in types
    }

    /** `list_all`: every registered name once, in registration order. */
    function ListAll(): (r: seq<string>)
      reads this
      requires Valid()
      ensures forall n :: n in r <==> IsRegistered(n)
      ensures forall i, j :: 0 <= i < j < |r| ==> r[i] != r[j]
    {
      names
    }
  }

  /** The class attribute `_instance`: no registry until the first construction. */
  class RegistryHolder {
    var instance: Option<TestTypeRegistry>

    ghost predicate Valid()
      reads this, if instance.Some? then {instance.value} else {}
    {
      instance.Some? ==> instance.value.Valid()
    }

    constructor ()
      ensures Valid() && instance.None?
    {
      instance := None;
    }

    /** `TestTypeRegistry()`: the existing instance untouched, or a new one seeded with S-Parameters. */
    method Instance() returns (r: TestTypeRegistry)
      requires Valid()
      modifies this
      ensures Valid() && instance == Some(r)
      ensures old(instance).Some? ==> r == old(instance).value && unchanged(r)
      ensures old(instance).None? ==>
                fresh(r) && r.names == [SParametersName] && r.types == map[SParametersName := SParametersTestType]
    {
      if instance.None? {
        r := new TestTypeRegistry();
        instance := Some(r);
      } else {
        r := instance.value;
      }
    }
  }

  /** Every construction yields the same registry, and S-Parameters is registered in it. */
  method ConstructTwice(h: RegistryHolder) returns (a: TestTypeRegistry, b: TestTypeRegistry)
    requires h.Valid()
    modifies h
    ensures a == b && a.IsRegistered(SParametersName)
  {
    a := h.Instance();
    b := h.Instance();
  }
}
