/**
 * The container: a registry from dependency names to wrappers.
 *
 * The process-wide `TestContainer.instance` is modelled as one explicit
 * `State` threaded through every call. The state also carries the counter
 * from which every newly built object draws its identity.
 */
module Containers {
  import opened Results
  import opened Factories
  import opened Wrappers

  /** A Ruby symbol naming a dependency or an attribute. */
  type Name = string

  datatype Container = Container(deps: map<Name, Wrapper>)

  datatype State = State(container: Container, nextId: nat)

  /** A successful lookup: the object handed out and the state afterwards. */
  datatype Resolved = Resolved(obj: Obj, state: State)

  /** The errors a lookup can raise. */
  datatype Error =
    | DependencyNotFound(name: Name)                     // `get_dependency` on an unknown name
    | UndefinedAttribute(consumer: ClassName, attr: Name) // reading an attribute nobody injected

  const Empty: State := State(Container(map[]), 0)

  /** Every cached singleton is a well-formed object built before the counter. */
  predicate Valid(st: State) {
    forall n :: n in st.container.deps ==> WrapperValid(st.container.deps[n], st.nextId)
  }

  /** Two containers register the same names with the same strategies and factories. */
  predicate SameShape(c: Container, c': Container) {
    && c.deps.Keys == c'.deps.Keys
    && forall n :: n in c.deps ==> SameRegistration(c.deps[n], c'.deps[n])
  }

  lemma SameShapeTransitive(a: Container, b: Container, c: Container)
    requires SameShape(a, b) && SameShape(b, c)
    ensures SameShape(a, c)
  {
    forall n | n in a.deps
      ensures SameRegistration(a.deps[n], c.deps[n])
    {
      assert n in b.deps;
    }
  }

  /** Stores `w` under `name`; every other name keeps its wrapper. */
  function Register(st: State, name: Name, w: Wrapper): (r: State)
    ensures name in r.container.deps && r.container.deps[name] == w
    ensures r.container.deps.Keys == st.container.deps.Keys + {name}
    ensures forall m :: m in st.container.deps && m != name ==>
      r.container.deps[m] == st.container.deps[m]
    ensures r.nextId == st.nextId
    ensures Valid(st) && WrapperValid(w, st.nextId) ==> Valid(r)
  {
    State(Container(st.container.deps[name := w]), st.nextId)
  }

  /**
   * `get_dependency(name)`: raises for an unknown name, otherwise asks the
   * name's wrapper for an object.
   */
  function GetDependency(st: State, name: Name): (r: Result<Resolved, Error>)
    // exactly the unknown names fail, and they fail with the name asked for
    ensures r.Failure? <==> name !in st.container.deps
    ensures r.Failure? ==> r.error == DependencyNotFound(name)
    ensures r.Success? ==>
      var w := st.container.deps[name];
      var st' := r.value.state;
      // the registry is unchanged apart from the resolved wrapper's cache
      && SameShape(st.container, st'.container)
      && (forall m :: m in st.container.deps && m != name ==>
            st'.container.deps[m] == st.container.deps[m])
      && st.nextId <= st'.nextId
      && (Valid(st) ==>
            Valid(st') && Conforms(r.value.obj, w.factory) && r.value.obj.id < st'.nextId)
      // instance scope: a brand-new object built by the factory
      && (w.InstanceVariableWrapper? ==>
            && r.value.obj.id == st.nextId && st'.nextId == st.nextId + 1
            && Conforms(r.value.obj, w.factory))
      // singleton scope: the first lookup builds a brand-new object ...
      && (w.SingletonWrapper? && w.instance.None? ==>
            r.value.obj.id == st.nextId && st'.nextId == st.nextId + 1)
      // ... the object is cached, and a cached object is returned as is
      && (w.SingletonWrapper? ==> st'.container.deps[name].instance == Some(r.value.obj))
      && (w.SingletonWrapper? && w.instance.Some? ==>
            r.value.obj == w.instance.value && st' == st)
  {
    if name !in st.container.deps then
      Failure(DependencyNotFound(name))
    else
      var res := Resolve(st.container.deps[name], st.nextId);
      var st' := State(Container(st.container.deps[name := res.wrapper]), res.nextId);
      assert SameShape(st.container, st'.container) by {
        assert st'.container.deps.Keys == st.container.deps.Keys;
      }
      Success(Resolved(res.obj, st'))
  }
}
