/**
 * Consumers: classes that declare `inject_attr dependency_name, attr_name`.
 *
 * The generated readers are modelled as data, a table from attribute name to
 * dependency name, plus one generic read that looks the dependency up in the
 * shared container. A read models the first read on a newly created consumer
 * instance, which is how the tests use them (`TestDependsOne.new.instance_var`).
 */
module Accessors {
  import opened Results
  import opened Factories
  import opened Wrappers
  import opened Containers

  datatype ConsumerClass = ConsumerClass(name: ClassName, injected: map<Name, Name>)

  /** A consumer class before any `inject_attr`. */
  function Consumer(name: ClassName): (cc: ConsumerClass)
    ensures cc.name == name && cc.injected == map[]
  {
    ConsumerClass(name, map[])
  }

  /** `inject_attr dependency, attr`: binds `attr` to `dependency`; other attributes keep their bindings. */
  function InjectAttr(cc: ConsumerClass, dependency: Name, attr: Name): (r: ConsumerClass)
    ensures r.name == cc.name
    ensures attr in r.injected && r.injected[attr] == dependency
    ensures r.injected.Keys == cc.injected.Keys + {attr}
    ensures forall a :: a in cc.injected && a != attr ==> r.injected[a] == cc.injected[a]
  {
    ConsumerClass(cc.name, cc.injected[attr := dependency])
  }

  /** Reads the injected attribute `attr` of a new instance of `cc`. */
  function ReadAttr(st: State, cc: ConsumerClass, attr: Name): (r: Result<Resolved, Error>)
    ensures attr !in cc.injected ==> r == Failure(UndefinedAttribute(cc.name, attr))
    // a declared attribute behaves exactly like a lookup of its dependency
    ensures attr in cc.injected ==> r == GetDependency(st, cc.injected[attr])
    ensures r.Success? <==> attr in cc.injected && cc.injected[attr] in st.container.deps
    ensures r.Success? && Valid(st) ==>
      Conforms(r.value.obj, st.container.deps[cc.injected[attr]].factory) && Valid(r.value.state)
  {
    if attr !in cc.injected then
      Failure(UndefinedAttribute(cc.name, attr))
    else
      GetDependency(st, cc.injected[attr])
  }

  /** Reading an attribute right after injecting it looks up the dependency it was bound to. */
  lemma InjectedAttrReadsItsDependency(st: State, cc: ConsumerClass, dependency: Name, attr: Name)
    requires dependency in st.container.deps && Valid(st)
    ensures var r := ReadAttr(st, InjectAttr(cc, dependency, attr), attr);
      r.Success? && Conforms(r.value.obj, st.container.deps[dependency].factory)
  {
  }

  /**
   * Two reads, through attributes of possibly different consumer classes
   * bound to the same singleton dependency, give back one and the same object.
   */
  lemma SingletonSharedAcrossConsumers(st: State, a: ConsumerClass, attrA: Name, b: ConsumerClass, attrB: Name)
    requires attrA in a.injected && attrB in b.injected
    requires a.injected[attrA] == b.injected[attrB]
    requires a.injected[attrA] in st.container.deps
    requires st.container.deps[a.injected[attrA]].SingletonWrapper?
    ensures var r1 := ReadAttr(st, a, attrA);
      && r1.Success?
      && var r2 := ReadAttr(r1.value.state, b, attrB);
      && r2.Success?
      && r2.value.obj == r1.value.obj
  {
    var n := a.injected[attrA];
    var r1 := ReadAttr(st, a, attrA);
    var st1 := r1.value.state;
    assert n in st1.container.deps && st1.container.deps[n].SingletonWrapper?;
    assert st1.container.deps[n].instance == Some(r1.value.obj);
  }

  /**
   * Two reads, through attributes bound to the same instance-scoped
   * dependency, give back two different objects.
   */
  lemma InstanceFreshAcrossConsumers(st: State, a: ConsumerClass, attrA: Name, b: ConsumerClass, attrB: Name)
    requires attrA in a.injected && attrB in b.injected
    requires a.injected[attrA] == b.injected[attrB]
    requires a.injected[attrA] in st.container.deps
    requires st.container.deps[a.injected[attrA]].InstanceVariableWrapper?
    ensures var r1 := ReadAttr(st, a, attrA);
      && r1.Success?
      && var r2 := ReadAttr(r1.value.state, b, attrB);
      && r2.Success?
      && r2.value.obj != r1.value.obj
  {
    var n := a.injected[attrA];
    var r1 := ReadAttr(st, a, attrA);
    assert n in r1.value.state.container.deps;
  }
}
