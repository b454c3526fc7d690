/** Properties that connect `field()` with the collection pass, and the
    collection pass on small concrete classes. */
module EndToEnd {
  import opened Values
  import opened Fields
  import opened Collect
  import opened Dataclass

  /** A plain local assigned `field(**namedargs)` becomes an attribute whose
      `init` is the call's `init` argument (true when absent) and whose
      default is the type of the selected default: of `default`, else of the
      factory's result, else no default at all. */
  lemma {:induction false} FieldCallAttribute(namedargs: map<string, Value>, callFactory: Value -> Value,
                                              typeOfDefault: Value -> Value, ls: seq<Local>, i: nat)
    requires DistinctNames(ls) && i < |ls| && !IsClassVar(ls[i]) && MatchInitVar(ls[i].value).None?
    requires FieldCall(namedargs, callFactory, typeOfDefault).Ok?
    requires ls[i].orig == Some(FieldCall(namedargs, callFactory, typeOfDefault).value)
    ensures exists k :: (0 <= k < |OwnAttrs(ls)| && OwnAttrs(ls)[k] == Attribute(
      ls[i].name, ls[i].value, KwargInit(namedargs),
      if "default" in namedargs then Some(typeOfDefault(namedargs["default"]))
      else if "default_factory" in namedargs then Some(typeOfDefault(callFactory(namedargs["default_factory"])))
      else None))
  {
    FieldCallIsField(namedargs, callFactory, typeOfDefault);
    PlainAttribute(map[], ls, i);
  }

  /** `x: int = "hello"`: exactly one mismatch is reported, and it names `x`. */
  lemma MismatchedDefaultReported(m: Matcher)
    requires m.mergeClasses(Class("int")) == Class("int")
    requires !m.compatible(Instance(Class("str")), Class("int"))
    ensures Diagnostics(m, OwnAttrs([Local("x", Class("int"), Some(Instance(Class("str"))))]))
      == [AnnotationTypeMismatch(Class("int"), Instance(Class("str")), "x")]
  {
    var ls := [Local("x", Class("int"), Some(Instance(Class("str"))))];
    assert MatchClassVar(Class("int")).None?;
    assert OwnAttrs(ls[..0]) == [];
    var own := OwnAttrs(ls);
    assert own == [Attribute("x", Class("int"), true, Some(Instance(Class("str"))))];
    assert own[..0] == [];
  }

  /** The inherited-then-own example: `class Child(Base)` with
      `b: str = "x"`, where `Base` stored `a: int`. The stored attributes are
      `a` then `b`, and the generated `__init__` is built from exactly that
      list. The inherited list `[a]` is supplied through the
      `getBaseClassAttrs` argument; the model does not derive it. */
  method InheritedThenOwnExample(m: Matcher, makeInit: seq<Attribute> -> Value)
  {
    var a := Attribute("a", Class("int"), true, None);
    var child := new InterpreterClass(map[], map["b" := Class("str")]);
    var log := new ErrorLog();
    var locals := [Local("b", Class("str"), Some(Instance(Class("str"))))];
    Decorate(child, log, m, locals, true, (own: seq<Attribute>) => [a], makeInit);
    var b := Attribute("b", Class("str"), true, Some(Instance(Class("str"))));
    assert MatchClassVar(Class("str")).None? && MatchInitVar(Class("str")).None?;
    assert OwnAttrs(locals[..0]) == [];
    assert OwnAttrs(locals) == [b];
    assert child.metadata[METADATA_KEY] == [a, b];
    assert child.members["__init__"] == makeInit([a, b]);
  }
}
