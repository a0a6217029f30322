/**
 * Objects and the factories that build them.
 *
 * A dependency class of the fixture (`TestDependencyOne`, `TestDependencyTwo`)
 * stores the constructor argument it was given, `nil` by default, behind an
 * `arg` reader. A factory is either such a class, constructed with its default
 * argument, or a zero-argument lambda that constructs a class with a fixed
 * argument.
 */
module Factories {
  import opened Results

  type ClassName = string

  /**
   * A plain Ruby object as the tests observe it: its identity, its class and
   * its `arg`. Ids are handed out by a counter, so two objects are the same
   * object exactly when they are equal.
   */
  datatype Obj = Obj(id: nat, cls: ClassName, arg: Option<string>)

  datatype Factory =
    | ClassFactory(cls: ClassName)                  // `Klass`, built as `Klass.new`
    | LambdaFactory(cls: ClassName, param: string)  // `-> { Klass.new(param) }`

  /** The `arg` every object built by `f` carries. */
  function ProducedArg(f: Factory): Option<string> {
    match f
    case ClassFactory(_) => None
    case LambdaFactory(_, p) => Some(p)
  }

  /** `o` is an object that `f` could have built: right class, right argument. */
  predicate Conforms(o: Obj, f: Factory) {
    o.cls == f.cls && o.arg == ProducedArg(f)
  }

  /** Invokes `f`; `id` is the identity the new object receives. */
  function Build(f: Factory, id: nat): (o: Obj)
    ensures Conforms(o, f) && o.id == id
    ensures f.ClassFactory? ==> o.arg == None
    ensures f.LambdaFactory? ==> o.arg == Some(f.param)
  {
    Obj(id, f.cls, ProducedArg(f))
  }
}
