/**
 * The class-level registration surface used by `TestDependencies`:
 * `dependency name, factory` and `singleton_dependency name, factory`.
 */
module Wiring {
  import opened Results
  import opened Factories
  import opened Wrappers
  import opened Containers

  /** `dependency name, factory`: registers `name` as instance-scoped. */
  function Dependency(st: State, name: Name, f: Factory): (r: State)
    ensures name in r.container.deps
    ensures r.container.deps[name].InstanceVariableWrapper? && r.container.deps[name].factory == f
    ensures r.container.deps.Keys == st.container.deps.Keys + {name}
    ensures forall m :: m in st.container.deps && m != name ==>
      r.container.deps[m] == st.container.deps[m]
    ensures r.nextId == st.nextId
    ensures Valid(st) ==> Valid(r)
  {
    Register(st, name, InstanceVariableWrapper(f))
  }

  /** `singleton_dependency name, factory`: registers `name` as a singleton, not yet built. */
  function SingletonDependency(st: State, name: Name, f: Factory): (r: State)
    ensures name in r.container.deps
    ensures r.container.deps[name].SingletonWrapper? && r.container.deps[name].factory == f
    ensures r.container.deps[name].instance == None
    ensures r.container.deps.Keys == st.container.deps.Keys + {name}
    ensures forall m :: m in st.container.deps && m != name ==>
      r.container.deps[m] == st.container.deps[m]
    ensures r.nextId == st.nextId
    ensures Valid(st) ==> Valid(r)
  {
    Register(st, name, SingletonWrapper(f, None))
  }

  /**
   * A name declared with `dependency` resolves, on its first lookup, to a new
   * object built by its factory. `Traces.InstanceReadIsFresh` extends this to
   * every later lookup.
   */
  lemma DeclaredDependencyResolves(st: State, name: Name, f: Factory)
    requires Valid(st)
    ensures var st1 := Dependency(st, name, f);
      var r := GetDependency(st1, name);
      && r.Success?
      && Conforms(r.value.obj, f)
      && r.value.obj.id == st.nextId
      && SameShape(st1.container, r.value.state.container)
  {
    var st1 := Dependency(st, name, f);
    assert Valid(st1);
  }

  /**
   * A name declared with `singleton_dependency` resolves to an object built
   * by its factory, and a second lookup returns that same object.
   */
  lemma DeclaredSingletonResolvesOnce(st: State, name: Name, f: Factory)
    requires Valid(st)
    ensures var st1 := SingletonDependency(st, name, f);
      var r1 := GetDependency(st1, name);
      && r1.Success?
      && Conforms(r1.value.obj, f)
      && var r2 := GetDependency(r1.value.state, name);
      && r2.Success?
      && r2.value.obj == r1.value.obj
  {
    var st1 := SingletonDependency(st, name, f);
    assert Valid(st1);
    var r1 := GetDependency(st1, name);
    assert r1.value.state.container.deps[name].instance == Some(r1.value.obj);
  }
}
