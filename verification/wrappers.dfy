/**
 * The two resolution strategies a registered name can have.
 *
 * An instance-scoped wrapper builds a new object on every resolution; a
 * singleton wrapper builds one on its first resolution, keeps it, and hands
 * the kept object out from then on.
 */
module Wrappers {
  import opened Results
  import opened Factories

  datatype Wrapper =
    | InstanceVariableWrapper(factory: Factory)
    | SingletonWrapper(factory: Factory, instance: Option<Obj>)

  /** What one resolution yields: the object, the updated wrapper and the next free id. */
  datatype Resolution = Resolution(obj: Obj, wrapper: Wrapper, nextId: nat)

  /** A cached singleton was built by the wrapper's factory before `nextId` was reached. */
  predicate WrapperValid(w: Wrapper, nextId: nat) {
    w.SingletonWrapper? && w.instance.Some? ==>
      w.instance.value.id < nextId && Conforms(w.instance.value, w.factory)
  }

  /** Same factory and same strategy; only a singleton's cache may differ. */
  predicate SameRegistration(w: Wrapper, w': Wrapper) {
    w.factory == w'.factory && w.InstanceVariableWrapper? == w'.InstanceVariableWrapper?
  }

  function Resolve(w: Wrapper, nextId: nat): (r: Resolution)
    // resolving never changes what is registered
    ensures SameRegistration(w, r.wrapper)
    ensures nextId <= r.nextId
    ensures WrapperValid(w, nextId) ==>
      WrapperValid(r.wrapper, r.nextId) && Conforms(r.obj, w.factory) && r.obj.id < r.nextId
    // instance scope: a brand-new object every time, the wrapper is untouched
    ensures w.InstanceVariableWrapper? ==>
      r.obj.id == nextId && r.nextId == nextId + 1 && r.wrapper == w
    // singleton scope: afterwards the wrapper holds exactly the object it returned
    ensures w.SingletonWrapper? ==> r.wrapper.instance == Some(r.obj)
    // ... and once it holds one, resolution returns it and changes nothing
    ensures w.SingletonWrapper? && w.instance.Some? ==>
      r.obj == w.instance.value && r.wrapper == w && r.nextId == nextId
    // the first resolution of a singleton builds a brand-new object
    ensures w.SingletonWrapper? && w.instance.None? ==>
      r.obj.id == nextId && r.nextId == nextId + 1
  {
    match w
    case InstanceVariableWrapper(f) =>
      Resolution(Build(f, nextId), w, nextId + 1)
    case SingletonWrapper(f, Some(o)) =>
      Resolution(o, w, nextId)
    case SingletonWrapper(f, None) =>
      var o := Build(f, nextId);
      Resolution(o, SingletonWrapper(f, Some(o)), nextId + 1)
  }
}
