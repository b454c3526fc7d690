/** The `@dataclass` decorator acting on a class object in place: the
    collection loop of `Dataclass.decorate`, `_handle_initvar`,
    `_check_default`, the metadata write and the `__init__` installation. */
module Dataclass {
  import opened Values
  import opened Collect

  /** The analyzer's error log; only annotation-type mismatches are modelled. */
  class ErrorLog {
    var diagnostics: seq<Diagnostic>

    constructor ()
      ensures diagnostics == []
    {
      diagnostics := [];
    }

    method AnnotationTypeMismatch(typ: Value, binding: Value, name: string)
      modifies this
      ensures diagnostics == old(diagnostics) + [Diagnostic.AnnotationTypeMismatch(typ, binding, name)]
    {
      diagnostics := diagnostics + [Diagnostic.AnnotationTypeMismatch(typ, binding, name)];
    }
  }

  /** The parts of an analyzed class object the decorator reads and writes:
      its member table, its annotations dict and its metadata. */
  class InterpreterClass {
    var members: map<string, Value>
    var annots: map<string, Value>
    var metadata: map<string, seq<Attribute>>

    constructor (members: map<string, Value>, annots: map<string, Value>)
      ensures this.members == members && this.annots == annots && metadata == map[]
    {
      this.members := members;
      this.annots := annots;
      metadata := map[];
    }
  }

  /** `_check_default`: reports one mismatch when a default is present and is
      not compatible with the declared class, and nothing otherwise. */
  method CheckDefault(log: ErrorLog, m: Matcher, name: string, value: Value, orig: Option<Value>)
    modifies log
    ensures log.diagnostics == old(log.diagnostics) + DefaultDiagnostics(m, name, value, orig)
  {
    if orig.None? {
      return;
    }
    var typ := m.mergeClasses(value);
    var bad := !m.compatible(orig.value, typ);
    if bad {
      log.AnnotationTypeMismatch(typ, orig.value, name);
    }
  }

  /** `_handle_initvar`: for `InitVar[T]`, deletes the annotation when there
      is no default and otherwise replaces it by `T`; returns `T`, or `None`
      when the declared value is not an InitVar. */
  method HandleInitvar(cls: InterpreterClass, name: string, value: Value, orig: Option<Value>)
    returns (initvar: Option<Value>)
    requires MatchInitVar(value).Some? && orig.None? ==> name in cls.annots
    modifies cls`annots
    ensures initvar == MatchInitVar(value)
    ensures cls.annots == InitVarAnnots(old(cls.annots), name, value, orig)
  {
    initvar := MatchInitVar(value);
    if initvar.None? {
      return;
    }
    if orig.None? {
      cls.annots := cls.annots - {name};
    } else {
      cls.annots := cls.annots[name := initvar.value];
    }
  }

  /** The body of the collection loop in `Dataclass.decorate` for one local:
      a ClassVar is skipped; otherwise the annotations dict and member table
      are updated, the default is checked and the attribute is returned. */
  method CollectLocal(cls: InterpreterClass, log: ErrorLog, m: Matcher, l: Local)
    returns (attrs: seq<Attribute>)
    requires DeletesAnnotation(l) ==> l.name in cls.annots
    modifies cls`annots, cls`members, log
    ensures attrs == AttrStep(l)
    ensures cls.annots == AnnotStep(old(cls.annots), l)
    ensures cls.members == MemberStep(old(cls.members), l)
    ensures log.diagnostics == old(log.diagnostics) + Diagnostics(m, attrs)
  {
    var name, value, orig := l.name, l.value, l.orig;
    var clsvar := MatchClassVar(value);
    if clsvar.Some? {
      return [];
    }
    var initvar := HandleInitvar(cls, name, value, orig);
    var init: bool;
    if initvar.Some? {
      value := Instance(initvar.value);
      init := true;
    } else {
      cls.members := cls.members[name := value];
      if IsField(orig) {
        var field := orig.value;
        orig := if field.default.Some? then Some(field.typ) else None;
        init := field.init;
      } else {
        init := true;
      }
    }
    CheckDefault(log, m, name, value, orig);
    attrs := [Attribute(name, value, init, orig)];
    assert attrs[..0] == [];
  }

  /** The collection loop of `Dataclass.decorate`: walks the locals in order
      and returns `own_attrs`, updating the annotations dict, the member
      table and the log as it goes. */
  method CollectOwnAttrs(cls: InterpreterClass, log: ErrorLog, m: Matcher, locals: seq<Local>)
    returns (ownAttrs: seq<Attribute>)
    requires DistinctNames(locals)
    requires forall i :: 0 <= i < |locals| && DeletesAnnotation(locals[i]) ==> locals[i].name in cls.annots
    modifies cls`annots, cls`members, log
    ensures ownAttrs == OwnAttrs(locals)
    ensures cls.annots == AnnotsAfter(old(cls.annots), locals)
    ensures cls.members == MembersAfter(old(cls.members), locals)
    ensures log.diagnostics == old(log.diagnostics) + Diagnostics(m, ownAttrs)
  {
    ownAttrs := [];
    var i := 0;
    while i < |locals|
      invariant 0 <= i <= |locals|
      invariant ownAttrs == OwnAttrs(locals[..i])
      invariant cls.annots == AnnotsAfter(old(cls.annots), locals[..i])
      invariant cls.members == MembersAfter(old(cls.members), locals[..i])
      invariant log.diagnostics == old(log.diagnostics) + Diagnostics(m, ownAttrs)
      invariant forall j :: i <= j < |locals| && DeletesAnnotation(locals[j]) ==> locals[j].name in cls.annots
    {
      assert locals[..i + 1][..i] == locals[..i];
      PendingAnnotationsKept(cls.annots, locals, i);
      var attrs := CollectLocal(cls, log, m, locals[i]);
      DiagnosticsAppend(m, ownAttrs, attrs);
      ownAttrs := ownAttrs + attrs;
      i := i + 1;
    }
    assert locals[..i] == locals;
  }

  /** `Dataclass.decorate`. The ordered class locals, the decorator's `init`
      argument and the collaborators whose code is not modelled
      (`get_base_class_attrs`, `make_init`) are parameters. */
  method Decorate(cls: InterpreterClass, log: ErrorLog, m: Matcher, locals: seq<Local>, initArg: bool,
                  getBaseClassAttrs: seq<Attribute> -> seq<Attribute>,
                  makeInit: seq<Attribute> -> Value)
    requires DistinctNames(locals)
    requires forall i :: 0 <= i < |locals| && DeletesAnnotation(locals[i]) ==> locals[i].name in cls.annots
    modifies cls, log
    ensures cls.annots == AnnotsAfter(old(cls.annots), locals)
    ensures METADATA_KEY in cls.metadata
    ensures cls.metadata == old(cls.metadata)[METADATA_KEY :=
      getBaseClassAttrs(OwnAttrs(locals)) + OwnAttrs(locals)]
    ensures cls.metadata[METADATA_KEY][|getBaseClassAttrs(OwnAttrs(locals))|..] == OwnAttrs(locals)
    ensures cls.members == FinalMembers(MembersAfter(old(cls.members), locals), initArg,
                                        makeInit(cls.metadata[METADATA_KEY]))
    ensures log.diagnostics == old(log.diagnostics) + Diagnostics(m, OwnAttrs(locals))
  {
    var ownAttrs := CollectOwnAttrs(cls, log, m, locals);
    var baseAttrs := getBaseClassAttrs(ownAttrs);
    var attrs := baseAttrs + ownAttrs;
    assert attrs[|baseAttrs|..] == ownAttrs;
    cls.metadata := cls.metadata[METADATA_KEY := attrs];
    if INIT !in cls.members && initArg {
      var initMethod := makeInit(attrs);
      cls.members := cls.members[INIT := initMethod];
    }
  }
}
