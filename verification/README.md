# Name-based dependency injection container, modelled in Dafny

This project models the small dependency-injection facility of smart-proxy
(`Proxy::DependencyInjection`) as its test suite,
`test/dependency_injection_test.rb`, pins it down:

- a **container** maps dependency names (Ruby symbols) to a **wrapper**;
- an `InstanceVariableWrapper` builds a new object on every lookup, a
  `SingletonWrapper` builds one on its first lookup and hands that object out
  from then on;
- a wrapper's **factory** is a class (constructed with its default `nil`
  argument) or a zero-argument lambda that constructs a class with a fixed
  argument;
- `dependency` / `singleton_dependency` register a name with one strategy or
  the other; `get_dependency` raises for an unknown name;
- **consumer** classes declare `inject_attr dependency, attribute`, and
  reading the attribute looks the dependency up in the shared container.

The container's own implementation is not part of this model. The behaviour
modelled is the one the test file sets up or asserts, with two extensions
that no test exercises:

- reading an attribute that no `inject_attr` declared fails, as a Ruby
  method call on an undefined reader would;
- registering a name that is already registered replaces its wrapper, so the
  last registration wins.

The model is a sequential state machine written as pure functions. `State`
holds the one shared container (the suite's `TestContainer.instance`) and an
identity counter. Every newly built object draws its id from that counter, so
two model objects are equal exactly when they are the same Ruby object, which
is what the tests' `!=` and `assert_equal` on plain objects compare.

Modules:

- `Results` (`results.dfy`): `Option` and `Result`.
- `Factories` (`factories.dfy`): objects, factories, `Build`.
- `Wrappers` (`wrappers.dfy`): the two wrappers and `Resolve`.
- `Containers` (`containers.dfy`): the registry, the `Valid` invariant, `Register` and `GetDependency`.
- `Wiring` (`wiring.dfy`): `dependency` and `singleton_dependency`.
- `Accessors` (`accessors.dfy`): consumer classes, `inject_attr` and attribute reads.
- `Traces` (`traces.dfy`): runs of many lookups, with the invariant the design rests on. A singleton name is only ever observed as one object. An instance-scoped lookup observes an object never observed before.
- `Fixture` (`fixture.dfy`): the concrete configuration of lines 26–50, with one lemma per test.

`Valid` says that every cached singleton was built by its own factory, with
an id below the counter. `Register`, `GetDependency` and `ResolveAll`
preserve it.

The fixture lemmas hold in every `Configured` state. Such a state has the
four registrations as made, and any singletons that earlier lookups already
cached. The tests share one container and may run in any order, so this is
the set of states a test can start in. `Fixture.LookupKeepsConfigured` shows
that a lookup never leaves this set.

The test names at lines 76 and 92 say the lambda "receives the container as
parameter", but the lambdas at lines 34 and 36 take no argument. The model
follows the code: a lambda factory ignores the container and constructs its
class with `"a_parameter"`.

## Model

`Traces.Observe`, `Traces.After`, `Traces.InstanceReadAboveCounter` and
`Accessors.Consumer` are helpers: the first two split one lookup into what it
observes and the state it leaves, the third is the induction step behind
`Traces.InstanceReadIsFresh`, and the last is an empty consumer class before
any `inject_attr`.

| member | source | states |
|---|---|---|
| Factories.Build | test/dependency_injection_test.rb:3-14 | A built object has the factory's class and identity it was given; a class factory leaves `arg` nil, a lambda factory stores its parameter |
| Wrappers.Resolve | test/dependency_injection_test.rb:104-123 | Instance wrapper: a new object with the next id, wrapper unchanged. Singleton: afterwards the cache holds the returned object; a cached object is returned with nothing changed; registration and the validity invariant are kept |
| Containers.Register | test/dependency_injection_test.rb:33-36 | The name maps to the given wrapper, every other name keeps its wrapper, the key set grows by the name, and validity is preserved |
| Containers.GetDependency | test/dependency_injection_test.rb:53-62 | Fails exactly for unregistered names, with a not-found error naming them. Otherwise returns an object its factory could build, keeps the registry's shape and validity, builds a new object for instance scope and for the first lookup of a singleton, caches that singleton object, and returns a cached object with the state unchanged |
| Wiring.Dependency | test/dependency_injection_test.rb:33-34 | Registers the name with an instance-scoped wrapper around the factory; other names untouched; validity preserved |
| Wiring.SingletonDependency | test/dependency_injection_test.rb:35-36 | Registers the name with an empty singleton wrapper around the factory; other names untouched; validity preserved |
| Wiring.DeclaredDependencyResolves | test/dependency_injection_test.rb:68-78 | A name declared with `dependency` resolves to a new object built by its factory |
| Wiring.DeclaredSingletonResolvesOnce | test/dependency_injection_test.rb:84-94 | A name declared with `singleton_dependency` resolves to an object built by its factory, and a second lookup returns the same object |
| Accessors.InjectAttr | test/dependency_injection_test.rb:42-49 | The attribute is bound to the dependency name; other attributes keep their bindings |
| Accessors.ReadAttr | test/dependency_injection_test.rb:96-102 | Reading a declared attribute is a lookup of its dependency. It succeeds exactly when the attribute is declared and its dependency registered, and the object conforms to that dependency's factory. Reading an undeclared attribute raises |
| Accessors.InjectedAttrReadsItsDependency | test/dependency_injection_test.rb:96-102 | Reading an attribute just injected yields an object built by its dependency's factory |
| Accessors.SingletonSharedAcrossConsumers | test/dependency_injection_test.rb:111-123 | Two reads through attributes, of the same or different consumer classes, bound to one singleton name return the same object |
| Accessors.InstanceFreshAcrossConsumers | test/dependency_injection_test.rb:104-109 | Two reads through attributes bound to one instance-scoped name return different objects |
| Traces.ResolveAll | test/dependency_injection_test.rb:52-124 | A run of lookups on the one shared container yields one observation per lookup. It keeps the registered names, strategies and factories and the validity invariant, and never decreases the identity counter |
| Traces.LookupFailsExactlyOnUnknown | test/dependency_injection_test.rb:53-62 | Within any run, a lookup fails exactly when its name is unregistered, and then with a not-found error naming it |
| Traces.CachedSingletonIsReturned | test/dependency_injection_test.rb:111-116 | Once a singleton holds an object, every later lookup of its name in the run returns that object |
| Traces.SingletonObservedOnce | test/dependency_injection_test.rb:111-123 | Any two lookups of a singleton name in one run succeed and observe the same object |
| Traces.InstanceReadIsFresh | test/dependency_injection_test.rb:104-109 | In a run from a valid state, an instance-scoped lookup observes an object whose identity exceeds that of every object observed earlier in the run, whatever name was looked up |
| Fixture.Boot | test/dependency_injection_test.rb:26-37 | Loading `TestDependencies` registers exactly the four names, in a valid state |
| Fixture.DependsOne | test/dependency_injection_test.rb:39-44 | `TestDependsOne` binds `instance_var` to `test_dependency_one` and `singleton_var` to `singleton_dependency` |
| Fixture.DependsTwo | test/dependency_injection_test.rb:46-50 | `TestDependsTwo` binds only `singleton_var`, to `singleton_dependency` |
| Fixture.ConfiguredRegistrations | test/dependency_injection_test.rb:64-82 | In every configured state, `dependencies` holds instance wrappers for the two `dependency` names and singleton wrappers for the two `singleton_dependency` names, with the declared factories |
| Fixture.LookupKeepsConfigured | test/dependency_injection_test.rb:21-31 | A lookup on the shared container leaves it configured, so every test starts from a configured state |
| Fixture.CanLocateDependency | test/dependency_injection_test.rb:53-56 | `test_dependency_one` and `singleton_dependency` both resolve |
| Fixture.RaisesErrorWhenNotFound | test/dependency_injection_test.rb:58-62 | `non_existent` fails with a not-found error |
| Fixture.InstanceVarInstantiatesCorrectClass | test/dependency_injection_test.rb:68-70 | `test_dependency_one` resolves to a `TestDependencyOne` |
| Fixture.InstanceVarDefinedByLambda | test/dependency_injection_test.rb:72-78 | `test_dependency_two` resolves to a `TestDependencyOne` whose `arg` is `"a_parameter"` |
| Fixture.SingletonVarInstantiatesCorrectClass | test/dependency_injection_test.rb:84-86 | `singleton_dependency` resolves to a `TestDependencyTwo` |
| Fixture.SingletonVarDefinedByLambda | test/dependency_injection_test.rb:88-94 | `singleton_dependency_two` resolves to a `TestDependencyTwo` whose `arg` is `"a_parameter"` |
| Fixture.ConsumerWiring | test/dependency_injection_test.rb:96-102 | `TestDependsOne.new.instance_var` is a `TestDependencyOne` and `.singleton_var` a `TestDependencyTwo` |
| Fixture.InstanceVarFreshForEveryConsumer | test/dependency_injection_test.rb:104-109 | Two `TestDependsOne` instances read `instance_var` as two different objects |
| Fixture.SingletonVarReusedWithinClass | test/dependency_injection_test.rb:111-116 | Two `TestDependsOne` instances read `singleton_var` as the same object |
| Fixture.SingletonVarReusedAcrossClasses | test/dependency_injection_test.rb:118-123 | A `TestDependsOne` and a `TestDependsTwo` instance read `singleton_var` as the same object |

## Left out

- Factories that receive the container: the lambdas in the test take no argument, so a lambda factory is modelled only as "construct this class with this argument".
- Arbitrary lambda bodies and exceptions raised inside a factory: the only factories modelled are class constructors and constructor lambdas.
- Per-consumer-instance memoisation of injected attributes: no test reads an attribute twice on one instance. `Accessors.ReadAttr` models the first read on a new consumer instance, which is how every test reads.
- Containers.Register: its contract gives last-write-wins on re-registration (the name maps to the newest wrapper, and `Wiring.Dependency` / `Wiring.SingletonDependency` inherit this). This is the model's choice; no test registers a name twice, so the test file does not show it.
- `TestContainer.instance` and several container owners: one explicit `State` stands for the single shared container.
- Ruby metaprogramming (`extend`, `include`, generated readers): an injected attribute is a table entry read by one generic function.
- The exception's class and message: `assert_raises RuntimeError` is modelled as a `DependencyNotFound` failure naming the dependency.
- Accessors.ReadAttr: reading an undeclared attribute fails with `UndefinedAttribute`; no test exercises this, and it stands for Ruby's `NoMethodError`, whose class and message are not modelled.
- Truthiness in `assert get_dependency(...)`: a successful lookup always yields an object, never `nil` or `false`.
- Concurrency: the container is used sequentially.
