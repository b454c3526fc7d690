/** Abstract values the analyzer manipulates while emulating `@dataclass`,
    reduced to a closed tagged variant, and the three small classifiers
    `is_field`, `match_initvar` and `match_classvar`. */
module Values {

  datatype Option<+T> = None | Some(value: T)

  /** The qualified names `match_type_container` looks for. */
  const CLASSVAR: string := "typing.ClassVar"
  const INITVAR: string := "dataclasses.InitVar"

  /** One abstract value. A variable of the analyzer is reduced to the single
      value it is bound to; Python's `None` is `Option.None` where it occurs. */
  datatype Value =
    | Class(name: string)                            // a class object, e.g. `int`
    | Generic(container: string, param: Value)       // a parameterised type, e.g. `ClassVar[int]`
    | Instance(cls: Value)                           // an instance of a class
    | Bool(b: bool)                                  // a Python boolean constant
    | FieldInstance(typ: Value, init: bool, default: Option<Value>)  // the result of `field(...)`
    | Unsolvable                                     // the analyzer's "any" sentinel
    | Function(id: nat)                              // a callable, e.g. a generated `__init__`

  /** One generated attribute: a constructor parameter and/or instance slot. */
  datatype Attribute = Attribute(name: string, typ: Value, init: bool, default: Option<Value>)

  /** One entry of the ordered class locals: the declared (annotation) value
      and the value assigned in the class body, if any. */
  datatype Local = Local(name: string, value: Value, orig: Option<Value>)

  /** The annotation-type-mismatch diagnostic: declared class, offending
      default and attribute name. */
  datatype Diagnostic = AnnotationTypeMismatch(declared: Value, binding: Value, name: string)

  /** Unpacks `T` from `typing.ClassVar[T]`. */
  function MatchClassVar(v: Value): (r: Option<Value>)
    ensures r.Some? ==> v == Generic(CLASSVAR, r.value)
    ensures r.None? ==> forall t :: v != Generic(CLASSVAR, t)
  {
    if v.Generic? && v.container == CLASSVAR then Some(v.param) else None
  }

  /** Unpacks `T` from `dataclasses.InitVar[T]`. */
  function MatchInitVar(v: Value): (r: Option<Value>)
    ensures r.Some? ==> v == Generic(INITVAR, r.value)
    ensures r.None? ==> forall t :: v != Generic(INITVAR, t)
  {
    if v.Generic? && v.container == INITVAR then Some(v.param) else None
  }

  /** A declared value is never both a ClassVar and an InitVar. */
  lemma MarkersExclusive(v: Value)
    ensures MatchClassVar(v).Some? ==> MatchInitVar(v).None?
  {
  }

  /** `is_field`: a present value whose data is a `FieldInstance`. */
  predicate IsField(orig: Option<Value>): (r: bool)
    ensures r <==> exists t, init, d :: orig == Some(FieldInstance(t, init, d))
  {
    orig.Some? && orig.value.FieldInstance?
  }
}
