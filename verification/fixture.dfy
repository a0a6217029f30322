/**
 * The configuration the test suite sets up: four registrations into the
 * shared `TestContainer`, made by `TestDependencies`, and two consumer
 * classes, `TestDependsOne` and `TestDependsTwo`. One lemma per test states
 * what that test asserts.
 *
 * The tests share one container and may run in any order, so every lemma is
 * stated for any `Configured` state: the four registrations as made, with
 * whatever singletons earlier lookups have already cached.
 */
module Fixture {
  import opened Results
  import opened Factories
  import opened Wrappers
  import opened Containers
  import opened Wiring
  import opened Accessors

  const DependencyOneClass: ClassName := "TestDependencyOne"
  const DependencyTwoClass: ClassName := "TestDependencyTwo"
  const Parameter: string := "a_parameter"

  const DependencyOne: Name := "test_dependency_one"
  const DependencyTwo: Name := "test_dependency_two"
  const SingletonOne: Name := "singleton_dependency"
  const SingletonTwo: Name := "singleton_dependency_two"
  const NonExistent: Name := "non_existent"

  /** The container right after `TestDependencies` has been loaded. */
  function Boot(): (st: State)
    ensures Valid(st)
    ensures st.container.deps.Keys == {DependencyOne, DependencyTwo, SingletonOne, SingletonTwo}
  {
    var s1 := Dependency(Empty, DependencyOne, ClassFactory(DependencyOneClass));
    var s2 := Dependency(s1, DependencyTwo, LambdaFactory(DependencyOneClass, Parameter));
    var s3 := SingletonDependency(s2, SingletonOne, ClassFactory(DependencyTwoClass));
    SingletonDependency(s3, SingletonTwo, LambdaFactory(DependencyTwoClass, Parameter))
  }

  /** `TestDependsOne`: `instance_var` and `singleton_var`. */
  function DependsOne(): (cc: ConsumerClass)
    ensures cc.injected == map["instance_var" := DependencyOne, "singleton_var" := SingletonOne]
  {
    InjectAttr(InjectAttr(Consumer("TestDependsOne"), DependencyOne, "instance_var"), SingletonOne, "singleton_var")
  }

  /** `TestDependsTwo`: `singleton_var` only. */
  function DependsTwo(): (cc: ConsumerClass)
    ensures cc.injected == map["singleton_var" := SingletonOne]
  {
    InjectAttr(Consumer("TestDependsTwo"), SingletonOne, "singleton_var")
  }

  /** A state of the shared container at any point of the test run. */
  predicate Configured(st: State) {
    Valid(st) && SameShape(Boot().container, st.container)
  }

  /** What `dependencies` shows for each configured name. */
  lemma {:induction false} ConfiguredRegistrations(st: State)
    requires Configured(st)
    ensures st.container.deps.Keys == {DependencyOne, DependencyTwo, SingletonOne, SingletonTwo}
    ensures st.container.deps[DependencyOne] == InstanceVariableWrapper(ClassFactory(DependencyOneClass))
    ensures st.container.deps[DependencyTwo] == InstanceVariableWrapper(LambdaFactory(DependencyOneClass, Parameter))
    ensures st.container.deps[SingletonOne].SingletonWrapper?
    ensures st.container.deps[SingletonOne].factory == ClassFactory(DependencyTwoClass)
    ensures st.container.deps[SingletonTwo].SingletonWrapper?
    ensures st.container.deps[SingletonTwo].factory == LambdaFactory(DependencyTwoClass, Parameter)
  {
    var b := Boot().container;
    assert SameRegistration(b.deps[DependencyOne], st.container.deps[DependencyOne]);
    assert SameRegistration(b.deps[DependencyTwo], st.container.deps[DependencyTwo]);
    assert SameRegistration(b.deps[SingletonOne], st.container.deps[SingletonOne]);
    assert SameRegistration(b.deps[SingletonTwo], st.container.deps[SingletonTwo]);
  }

  lemma BootIsConfigured()
    ensures Configured(Boot())
  {
  }

  /** Lookups keep the container configured, so every later test sees a `Configured` state. */
  lemma {:induction false} LookupKeepsConfigured(st: State, name: Name)
    requires Configured(st)
    ensures var r := GetDependency(st, name);
      r.Success? ==> Configured(r.value.state)
  {
    var r := GetDependency(st, name);
    if r.Success? {
      SameShapeTransitive(Boot().container, st.container, r.value.state.container);
    }
  }

  // test_can_locate_dependency
  lemma CanLocateDependency(st: State)
    requires Configured(st)
    ensures GetDependency(st, DependencyOne).Success?
    ensures GetDependency(st, SingletonOne).Success?
  {
    ConfiguredRegistrations(st);
  }

  // test_raises_error_when_dependency_cannot_be_found
  lemma RaisesErrorWhenNotFound(st: State)
    requires Configured(st)
    ensures GetDependency(st, NonExistent) == Failure(DependencyNotFound(NonExistent))
  {
    ConfiguredRegistrations(st);
  }

  // test_instance_var_dependency_instantiates_correct_class
  lemma InstanceVarInstantiatesCorrectClass(st: State)
    requires Configured(st)
    ensures var r := GetDependency(st, DependencyOne);
      r.Success? && r.value.obj.cls == DependencyOneClass
  {
    ConfiguredRegistrations(st);
  }

  // test_instance_var_dependency_defined_by_lambda and
  // test_instance_var_dependency_lambda_receives_container_as_parameter
  lemma InstanceVarDefinedByLambda(st: State)
    requires Configured(st)
    ensures var r := GetDependency(st, DependencyTwo);
      r.Success? && r.value.obj.cls == DependencyOneClass && r.value.obj.arg == Some(Parameter)
  {
    ConfiguredRegistrations(st);
  }

  // test_singleton_var_dependency_instantiates_correct_class
  lemma SingletonVarInstantiatesCorrectClass(st: State)
    requires Configured(st)
    ensures var r := GetDependency(st, SingletonOne);
      r.Success? && r.value.obj.cls == DependencyTwoClass
  {
    ConfiguredRegistrations(st);
  }

  // test_singleton_var_dependency_defined_by_lambda and
  // test_singleton_var_dependency_lambda_receives_container_as_parameter
  lemma SingletonVarDefinedByLambda(st: State)
    requires Configured(st)
    ensures var r := GetDependency(st, SingletonTwo);
      r.Success? && r.value.obj.cls == DependencyTwoClass && r.value.obj.arg == Some(Parameter)
  {
    ConfiguredRegistrations(st);
  }

  // test_instance_var_wiring and test_singleton_var_wiring
  lemma ConsumerWiring(st: State)
    requires Configured(st)
    ensures var r := ReadAttr(st, DependsOne(), "instance_var");
      r.Success? && r.value.obj.cls == DependencyOneClass
    ensures var r := ReadAttr(st, DependsOne(), "singleton_var");
      r.Success? && r.value.obj.cls == DependencyTwoClass
  {
    ConfiguredRegistrations(st);
  }

  // test_instance_var_dependency_is_instantiated_for_every_instance_of_class
  lemma InstanceVarFreshForEveryConsumer(st: State)
    requires Configured(st)
    ensures var r1 := ReadAttr(st, DependsOne(), "instance_var");
      && r1.Success?
      && var r2 := ReadAttr(r1.value.state, DependsOne(), "instance_var");
      && r2.Success?
      && r1.value.obj != r2.value.obj
  {
    ConfiguredRegistrations(st);
    InstanceFreshAcrossConsumers(st, DependsOne(), "instance_var", DependsOne(), "instance_var");
  }

  // test_singleton_var_dependency_is_reused_for_each_instance_of_class
  lemma SingletonVarReusedWithinClass(st: State)
    requires Configured(st)
    ensures var r1 := ReadAttr(st, DependsOne(), "singleton_var");
      && r1.Success?
      && var r2 := ReadAttr(r1.value.state, DependsOne(), "singleton_var");
      && r2.Success?
      && r1.value.obj == r2.value.obj
  {
    ConfiguredRegistrations(st);
    SingletonSharedAcrossConsumers(st, DependsOne(), "singleton_var", DependsOne(), "singleton_var");
  }

  // test_singleton_var_dependency_is_reused_for_instances_of_different_classes
  lemma SingletonVarReusedAcrossClasses(st: State)
    requires Configured(st)
    ensures var r1 := ReadAttr(st, DependsOne(), "singleton_var");
      && r1.Success?
      && var r2 := ReadAttr(r1.value.state, DependsTwo(), "singleton_var");
      && r2.Success?
      && r1.value.obj == r2.value.obj
  {
    ConfiguredRegistrations(st);
    SingletonSharedAcrossConsumers(st, DependsOne(), "singleton_var", DependsTwo(), "singleton_var");
  }
}
