/** `dataclasses.field(...)` evaluated symbolically: the choice between
    `default` and `default_factory`, the `init` flag and the resulting
    `FieldInstance`. */
module Fields {
  import opened Values

  /** The configuration error `field()` can raise. */
  datatype FieldError = DuplicateKeyword(name: string)

  datatype Result<+T> = Ok(value: T) | Err(error: FieldError)

  /** `_get_default_var`: picks the default value from the keyword arguments.
      `callFactory` stands for calling the factory with no arguments. */
  function GetDefaultVar(namedargs: map<string, Value>, callFactory: Value -> Value): (r: Result<Option<Value>>)
    ensures r.Err? <==> "default" in namedargs && "default_factory" in namedargs
    ensures r.Err? ==> r.error == DuplicateKeyword("default")
    ensures r.Ok? ==> (r.value.None? <==> "default" !in namedargs && "default_factory" !in namedargs)
    ensures r.Ok? && "default" in namedargs ==> r.value == Some(namedargs["default"])
    ensures r.Ok? && "default_factory" in namedargs ==> r.value == Some(callFactory(namedargs["default_factory"]))
  {
    if "default" in namedargs && "default_factory" in namedargs then
      Err(DuplicateKeyword("default"))
    else if "default" in namedargs then
      Ok(Some(namedargs["default"]))
    else if "default_factory" in namedargs then
      Ok(Some(callFactory(namedargs["default_factory"])))
    else
      Ok(None)
  }

  /** The `init` keyword argument, `True` when it is not given. */
  function KwargInit(namedargs: map<string, Value>): (init: bool)
    ensures "init" !in namedargs ==> init
    ensures "init" in namedargs && namedargs["init"].Bool? ==> init == namedargs["init"].b
  {
    if "init" in namedargs && namedargs["init"].Bool? then namedargs["init"].b else true
  }

  /** `Field.call`: the `FieldInstance` a call `field(**namedargs)` yields.
      `typeOfDefault` stands for `get_type_from_default`. */
  function FieldCall(namedargs: map<string, Value>, callFactory: Value -> Value,
                     typeOfDefault: Value -> Value): (r: Result<Value>)
    ensures r.Err? <==> "default" in namedargs && "default_factory" in namedargs
    ensures r.Err? ==> r.error == DuplicateKeyword("default")
    ensures r.Ok? ==> r.value.FieldInstance? && r.value.init == KwargInit(namedargs)
    ensures r.Ok? ==> r.value.default == GetDefaultVar(namedargs, callFactory).value
    ensures r.Ok? && r.value.default.None? ==> r.value.typ == Unsolvable
    ensures r.Ok? && r.value.default.Some? ==> r.value.typ == typeOfDefault(r.value.default.value)
  {
    match GetDefaultVar(namedargs, callFactory)
    case Err(e) => Err(e)
    case Ok(defaultVar) =>
      var init := KwargInit(namedargs);
      var typ := if defaultVar.Some? then typeOfDefault(defaultVar.value) else Unsolvable;
      Ok(FieldInstance(typ, init, defaultVar))
  }

  /** What `field()` returns is exactly what `is_field` recognises, and its
      default is present precisely when `default` or `default_factory` was
      given. */
  lemma FieldCallIsField(namedargs: map<string, Value>, callFactory: Value -> Value,
                         typeOfDefault: Value -> Value)
    requires !("default" in namedargs && "default_factory" in namedargs)
    ensures FieldCall(namedargs, callFactory, typeOfDefault).Ok?
    ensures IsField(Some(FieldCall(namedargs, callFactory, typeOfDefault).value))
    ensures FieldCall(namedargs, callFactory, typeOfDefault).value.default.Some?
        <==> "default" in namedargs || "default_factory" in namedargs
  {
  }
}
