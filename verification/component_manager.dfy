/**
 * `ComponentManager` of the browser client
 * (src/js/utils/component-manager.js): a registry of view classes by name
 * and a cache of one instance per name.
 *
 * A class is modelled by its identity and whether its instances have a
 * `destroy` method; an instance by its class and a serial number, since
 * every `new` makes an object distinct from all before it. What a
 * constructor or `destroy` does beyond that is outside the model.
 */
module ComponentManager {
  import opened Wrappers
  import opened JsCollections

  /** A registered class: its identity, and whether its instances have a `destroy` method. */
  datatype ComponentClass = ComponentClass(id: nat, hasDestroy: bool)

  /** An object made by `new ComponentClass()`. */
  datatype Instance = Instance(component: ComponentClass, serial: nat)

  /** The registry, the instance cache, and the serial of the next object `new` makes. */
  datatype Manager = Manager(components: JsMap<ComponentClass>, instances: JsMap<Instance>, nextSerial: nat)
  {
    /** Both maps are well formed and every cached instance is older than the next one. */
    predicate Valid()
    {
      && components.Valid() && instances.Valid()
      && forall n :: n in instances.entries ==> instances.entries[n].serial < nextSerial
    }
  }

  /** Why `getInstance` throws. */
  datatype ComponentError = ComponentNotFound(name: string)

  /** `new ComponentManager()`. */
  function NewManager(): (m: Manager)
    ensures m.Valid() && GetRegisteredComponents(m) == []
  {
    Manager(EmptyMap(), EmptyMap(), 0)
  }

  /** `register(name, ComponentClass)`: a second registration under a name replaces the first. */
  function Register(m: Manager, name: string, cls: ComponentClass): (r: Manager)
    requires m.Valid()
    ensures r.Valid()
    ensures Get(r, name) == Some(cls) && Has(r, name)
    ensures forall n :: n != name ==> Get(r, n) == Get(m, n)
    ensures r.instances == m.instances
  {
    m.(components := Put(m.components, name, cls))
  }

  /** `unregister(name)`: both the class and the cached instance go. */
  function Unregister(m: Manager, name: string): (r: Manager)
    requires m.Valid()
    ensures r.Valid()
    ensures !Has(r, name) && !r.instances.Has(name)
    ensures forall n :: n != name ==> Get(r, n) == Get(m, n) && r.instances.Get(n) == m.instances.Get(n)
  {
    m.(components := Delete(m.components, name), instances := Delete(m.instances, name))
  }

  /** `get(name)`; `undefined` is `None`. */
  function Get(m: Manager, name: string): Option<ComponentClass>
  {
    m.components.Get(name)
  }

  /** `has(name)`. */
  predicate Has(m: Manager, name: string)
  {
    m.components.Has(name)
  }

  /** `getRegisteredComponents()`: the names in order of first registration. */
  function GetRegisteredComponents(m: Manager): seq<string>
  {
    m.components.order
  }

  /**
   * `getInstance(name, forceNew)`: the cached instance, unless there is
   * none or a new one is forced; a new one is made from the registered
   * class and cached, and without a class the call throws.
   */
  function GetInstance(m: Manager, name: string, forceNew: bool): (r: Result<(Manager, Instance), ComponentError>)
    requires m.Valid()
    ensures r.Success? ==> r.value.0.Valid() && r.value.0.components == m.components
    ensures r.Success? ==> r.value.0.instances.Get(name) == Some(r.value.1)
    ensures !forceNew && m.instances.Has(name) ==> r == Success((m, m.instances.entries[name]))
    ensures (forceNew || !m.instances.Has(name)) ==>
      (r.Failure? <==> !Has(m, name))
      && (r.Failure? ==> r.error == ComponentNotFound(name))
      && (r.Success? ==> r.value.1 == Instance(m.components.entries[name], m.nextSerial))
    ensures r.Success? ==> forall n :: n != name ==> r.value.0.instances.Get(n) == m.instances.Get(n)
  {
    if forceNew || !m.instances.Has(name) then
      match Get(m, name)
      case None => Failure(ComponentNotFound(name))
      case Some(cls) =>
        var inst := Instance(cls, m.nextSerial);
        Success((Manager(m.components, Put(m.instances, name, inst), m.nextSerial + 1), inst))
    else
      Success((m, m.instances.entries[name]))
  }

  /** `destroyInstance(name)`: the cached instance goes, after `destroy` is called on it if it has one; the registration stays. */
  function DestroyInstance(m: Manager, name: string): (r: (Manager, Option<Instance>))
    requires m.Valid()
    ensures r.0.Valid() && r.0.components == m.components
    ensures !r.0.instances.Has(name)
    ensures forall n :: n != name ==> r.0.instances.Get(n) == m.instances.Get(n)
    ensures r.1.Some? <==> m.instances.Has(name) && m.instances.entries[name].component.hasDestroy
    ensures r.1.Some? ==> r.1.value == m.instances.entries[name]
  {
    var destroyed := match m.instances.Get(name)
      case Some(inst) => if inst.component.hasDestroy then Some(inst) else None
      case None => None;
    (m.(instances := Delete(m.instances, name)), destroyed)
  }

  /** `a` is `b` with some elements left out, the rest kept in order. */
  predicate IsSubsequence<T(==)>(a: seq<T>, b: seq<T>)
    decreases |b|
  {
    if |a| == 0 then true
    else if |b| == 0 then false
    else (a[0] == b[0] && IsSubsequence(a[1..], b[1..])) || IsSubsequence(a, b[1..])
  }

  /** The cached instances under `names`, in that order. */
  function InstancesOf(m: Manager, names: seq<string>): (r: seq<Instance>)
    requires forall i :: 0 <= i < |names| ==> names[i] in m.instances.entries
    ensures |r| == |names|
    ensures forall i :: 0 <= i < |names| ==> r[i] == m.instances.entries[names[i]]
  {
    seq(|names|, i requires 0 <= i < |names| => m.instances.entries[names[i]])
  }

  lemma InstancesAreCached(m: Manager, names: seq<string>)
    requires forall i :: 0 <= i < |names| ==> names[i] in m.instances.entries
    ensures forall x :: x in InstancesOf(m, names) ==> x in m.instances.entries.Values
  {
    var all := InstancesOf(m, names);
    forall x | x in all
      ensures x in m.instances.entries.Values
    {
      var i :| 0 <= i < |all| && all[i] == x;
      assert m.instances.entries[names[i]] == x;
    }
  }

  /** Every element of a subsequence is an element of the sequence. */
  lemma {:induction false} SubsequenceMembers<T>(a: seq<T>, b: seq<T>)
    requires IsSubsequence(a, b)
    ensures forall x :: x in a ==> x in b
    decreases |b|
  {
    if |a| > 0 {
      if a[0] == b[0] && IsSubsequence(a[1..], b[1..]) {
        SubsequenceMembers(a[1..], b[1..]);
        assert forall x :: x in a ==> x == a[0] || x in a[1..];
        assert forall x :: x in b[1..] ==> x in b;
      } else {
        SubsequenceMembers(a, b[1..]);
        assert forall x :: x in b[1..] ==> x in b;
      }
    }
  }

  /**
   * `clear()`: every cached instance that has `destroy` is destroyed, once
   * and in cache order, and no other object is; then both maps are emptied.
   */
  function Clear(m: Manager): (r: (Manager, seq<Instance>))
    requires m.Valid()
    ensures r.0.Valid() && GetRegisteredComponents(r.0) == [] && r.0.instances.Size() == 0
    ensures forall n :: !Has(r.0, n)
    ensures forall i :: 0 <= i < |r.1| ==> r.1[i].component.hasDestroy
    ensures forall n :: n in m.instances.entries && m.instances.entries[n].component.hasDestroy ==> m.instances.entries[n] in r.1
    ensures IsSubsequence(r.1, InstancesOf(m, m.instances.order))
    ensures forall i :: 0 <= i < |r.1| ==> r.1[i] in m.instances.entries.Values
  {
    var destroyed := DestroyAll(m, m.instances.order);
    SubsequenceMembers(destroyed, InstancesOf(m, m.instances.order));
    InstancesAreCached(m, m.instances.order);
    (Manager(EmptyMap(), EmptyMap(), m.nextSerial), destroyed)
  }

  /** The `destroy` calls `clear` makes, one per cached instance that has the method. */
  function DestroyAll(m: Manager, names: seq<string>): (r: seq<Instance>)
    requires m.Valid() && forall i :: 0 <= i < |names| ==> names[i] in m.instances.entries
    ensures forall i :: 0 <= i < |r| ==> r[i].component.hasDestroy
    ensures forall i :: 0 <= i < |names| && m.instances.entries[names[i]].component.hasDestroy ==>
      m.instances.entries[names[i]] in r
    ensures IsSubsequence(r, InstancesOf(m, names))
  {
    if |names| == 0 then []
    else
      var inst := m.instances.entries[names[0]];
      var rest := DestroyAll(m, names[1..]);
      var all := InstancesOf(m, names);
      assert all[0] == inst && all[1..] == InstancesOf(m, names[1..]);
      if inst.component.hasDestroy then
        assert ([inst] + rest)[1..] == rest;
        [inst] + rest
      else
        rest
  }

  // -----------------------------------------------------------------------
  // Properties

  /** Asking twice without forcing gives the same object. */
  lemma InstanceIsCached(m: Manager, name: string, forceNew: bool)
    requires m.Valid() && GetInstance(m, name, forceNew).Success?
    ensures var (m1, a) := GetInstance(m, name, forceNew).value;
            GetInstance(m1, name, false) == Success((m1, a))
  {
  }

  /** Forcing a new instance gives an object distinct from the cached one. */
  lemma ForcedInstanceIsNew(m: Manager, name: string)
    requires m.Valid() && m.instances.Has(name) && Has(m, name)
    ensures GetInstance(m, name, true).Success?
    ensures GetInstance(m, name, true).value.1 != m.instances.entries[name]
  {
  }

  /** After `destroyInstance` the next `getInstance` makes a new object of the registered class. */
  lemma DestroyThenGetMakesNew(m: Manager, name: string)
    requires m.Valid() && Has(m, name)
    ensures var m1 := DestroyInstance(m, name).0;
            GetInstance(m1, name, false).Success?
            && GetInstance(m1, name, false).value.1 == Instance(m.components.entries[name], m.nextSerial)
  {
  }

  /** A registration under an unused name followed by `unregister` leaves the registry as it was. */
  lemma RegisterThenUnregister(m: Manager, name: string, cls: ComponentClass)
    requires m.Valid() && !Has(m, name) && !m.instances.Has(name)
    ensures Unregister(Register(m, name, cls), name) == m
  {
    PutThenDelete(m.components, name, cls);
    WithoutAbsent(m.instances.order, name);
    assert m.instances.entries - {name} == m.instances.entries;
  }

  /** Registering a new class under a name does not replace an instance already cached for it. */
  lemma ReregisterKeepsCachedInstance(m: Manager, name: string, cls: ComponentClass)
    requires m.Valid() && m.instances.Has(name)
    ensures GetInstance(Register(m, name, cls), name, false).Success?
    ensures GetInstance(Register(m, name, cls), name, false).value.1 == m.instances.entries[name]
  {
  }
}
