/**
 * Sequences of lookups against one container, and the invariant the whole
 * design exists for: a singleton name is only ever observed as one object,
 * and an instance-scoped name yields an object never observed before.
 */
module Traces {
  import opened Results
  import opened Factories
  import opened Wrappers
  import opened Containers

  /** What a run of lookups observed, and the state it ended in. */
  datatype Run = Run(outs: seq<Result<Obj, Error>>, final: State)

  /** What one lookup observes: the object handed out, or the error raised. */
  function Observe(st: State, name: Name): (r: Result<Obj, Error>)
    ensures r.Success? <==> name in st.container.deps
    ensures r.Failure? ==> r.error == DependencyNotFound(name)
    ensures r.Success? && st.container.deps[name].InstanceVariableWrapper? ==>
      r.value.id == st.nextId
    ensures r.Success? && st.container.deps[name].SingletonWrapper? &&
            st.container.deps[name].instance.Some? ==>
      r.value == st.container.deps[name].instance.value
  {
    var g := GetDependency(st, name);
    if g.Success? then Success(g.value.obj) else Failure(g.error)
  }

  /** The state after one lookup; a failed lookup leaves the state as it was. */
  function After(st: State, name: Name): (r: State)
    ensures SameShape(st.container, r.container)
    ensures forall m :: m in st.container.deps && m != name ==>
      r.container.deps[m] == st.container.deps[m]
    ensures st.nextId <= r.nextId
    ensures Valid(st) ==> Valid(r)
    ensures Valid(st) && Observe(st, name).Success? ==> Observe(st, name).value.id < r.nextId
    ensures name in st.container.deps && st.container.deps[name].SingletonWrapper? ==>
      r.container.deps[name].instance == Some(Observe(st, name).value)
  {
    var g := GetDependency(st, name);
    if g.Success? then g.value.state else st
  }

  /** Looks up `names` one after the other, starting from `st`. */
  function ResolveAll(st: State, names: seq<Name>): (r: Run)
    ensures |r.outs| == |names|
    ensures SameShape(st.container, r.final.container)
    ensures st.nextId <= r.final.nextId
    ensures Valid(st) ==> Valid(r.final)
    decreases |names|
  {
    if names == [] then
      Run([], st)
    else
      var st1 := After(st, names[0]);
      var rest := ResolveAll(st1, names[1..]);
      SameShapeTransitive(st.container, st1.container, rest.final.container);
      Run([Observe(st, names[0])] + rest.outs, rest.final)
  }

  /** The first observation of a run is that of its first lookup. */
  lemma ResolveAllHead(st: State, names: seq<Name>)
    requires |names| > 0
    ensures ResolveAll(st, names).outs[0] == Observe(st, names[0])
  {
  }

  /** Every later observation is made by the run of the remaining names from the state after the first lookup. */
  lemma ResolveAllTail(st: State, names: seq<Name>, k: int)
    requires 0 < k < |names|
    ensures names[1..][k - 1] == names[k]
    ensures ResolveAll(st, names).outs[k] == ResolveAll(After(st, names[0]), names[1..]).outs[k - 1]
  {
  }

  /** In a run, a lookup fails exactly when its name is not registered, and then with that name. */
  lemma {:induction false} LookupFailsExactlyOnUnknown(st: State, names: seq<Name>, i: int)
    requires 0 <= i < |names|
    ensures ResolveAll(st, names).outs[i].Success? <==> names[i] in st.container.deps
    ensures ResolveAll(st, names).outs[i].Failure? ==>
      ResolveAll(st, names).outs[i].error == DependencyNotFound(names[i])
    decreases |names|
  {
    if i == 0 {
      ResolveAllHead(st, names);
    } else {
      ResolveAllTail(st, names, i);
      LookupFailsExactlyOnUnknown(After(st, names[0]), names[1..], i - 1);
    }
  }

  /** Once a singleton holds an object, every later lookup of its name returns that object. */
  lemma {:induction false} CachedSingletonIsReturned(st: State, names: seq<Name>, n: Name, o: Obj, j: int)
    requires n in st.container.deps && st.container.deps[n].SingletonWrapper?
    requires st.container.deps[n].instance == Some(o)
    requires 0 <= j < |names| && names[j] == n
    ensures ResolveAll(st, names).outs[j] == Success(o)
    decreases |names|
  {
    var next := After(st, names[0]);
    if j == 0 {
      ResolveAllHead(st, names);
    } else {
      ResolveAllTail(st, names, j);
      CachedSingletonIsReturned(next, names[1..], n, o, j - 1);
    }
  }

  /** Any two lookups of a singleton name in one run observe the same object. */
  lemma {:induction false} SingletonObservedOnce(st: State, names: seq<Name>, n: Name, i: int, j: int)
    requires n in st.container.deps && st.container.deps[n].SingletonWrapper?
    requires 0 <= i < j < |names| && names[i] == n && names[j] == n
    ensures ResolveAll(st, names).outs[i].Success?
    ensures ResolveAll(st, names).outs[i] == ResolveAll(st, names).outs[j]
    decreases |names|
  {
    var next := After(st, names[0]);
    ResolveAllTail(st, names, j);
    assert n in next.container.deps && next.container.deps[n].SingletonWrapper? by {
      assert SameRegistration(st.container.deps[n], next.container.deps[n]);
    }
    if i == 0 {
      ResolveAllHead(st, names);
      CachedSingletonIsReturned(next, names[1..], n, Observe(st, n).value, j - 1);
    } else {
      ResolveAllTail(st, names, i);
      SingletonObservedOnce(next, names[1..], n, i - 1, j - 1);
    }
  }

  /** An instance-scoped lookup builds its object at or above the counter the run started with. */
  lemma {:induction false} InstanceReadAboveCounter(st: State, names: seq<Name>, j: int)
    requires 0 <= j < |names|
    requires names[j] in st.container.deps && st.container.deps[names[j]].InstanceVariableWrapper?
    ensures ResolveAll(st, names).outs[j].Success?
    ensures ResolveAll(st, names).outs[j].value.id >= st.nextId
    decreases |names|
  {
    var next := After(st, names[0]);
    if j == 0 {
      ResolveAllHead(st, names);
    } else {
      ResolveAllTail(st, names, j);
      assert SameRegistration(st.container.deps[names[j]], next.container.deps[names[j]]);
      InstanceReadAboveCounter(next, names[1..], j - 1);
    }
  }

  /**
   * An instance-scoped lookup observes an object that no earlier lookup of the
   * run observed, whatever name that earlier lookup asked for: its identity is
   * greater than every identity observed before it.
   */
  lemma {:induction false} InstanceReadIsFresh(st: State, names: seq<Name>, i: int, j: int)
    requires Valid(st)
    requires 0 <= i < j < |names|
    requires names[j] in st.container.deps && st.container.deps[names[j]].InstanceVariableWrapper?
    requires names[i] in st.container.deps
    ensures ResolveAll(st, names).outs[i].Success? && ResolveAll(st, names).outs[j].Success?
    ensures ResolveAll(st, names).outs[i].value.id < ResolveAll(st, names).outs[j].value.id
    decreases |names|
  {
    var next := After(st, names[0]);
    var n := names[j];
    ResolveAllTail(st, names, j);
    assert n in next.container.deps && next.container.deps[n].InstanceVariableWrapper? by {
      assert SameRegistration(st.container.deps[n], next.container.deps[n]);
    }
    if i == 0 {
      ResolveAllHead(st, names);
      InstanceReadAboveCounter(next, names[1..], j - 1);
    } else {
      ResolveAllTail(st, names, i);
      InstanceReadIsFresh(next, names[1..], i - 1, j - 1);
    }
  }
}
