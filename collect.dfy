/** The attribute-collection pass of `Dataclass.decorate`, stated as pure
    functions of the ordered class locals, together with the properties the
    pass guarantees. The imperative `decorate` in module Dataclass is proved
    to compute exactly these functions. */
module Collect {
  import opened Values

  /** The metadata key under which the attribute list is stored. */
  const METADATA_KEY: string := "__dataclass_fields__"
  const INIT: string := "__init__"

  /** The type lattice: `merge_classes` and "`bad_matches` is empty". */
  datatype Matcher = Matcher(mergeClasses: Value -> Value, compatible: (Value, Value) -> bool)

  /** Two maps agree on key `n`. */
  predicate SameAt(m1: map<string, Value>, m2: map<string, Value>, n: string)
  {
    (n in m1 <==> n in m2) && (n in m1 ==> m1[n] == m2[n])
  }

  /** The class locals form an ordered dict: no name occurs twice. */
  predicate DistinctNames(ls: seq<Local>)
  {
    forall i, j :: 0 <= i < j < |ls| ==> ls[i].name != ls[j].name
  }

  predicate IsClassVar(l: Local)
  {
    MatchClassVar(l.value).Some?
  }

  /** An InitVar local without a default: `_handle_initvar` deletes its
      annotation, so the annotation must be there. */
  predicate DeletesAnnotation(l: Local)
  {
    !IsClassVar(l) && MatchInitVar(l.value).Some? && l.orig.None?
  }

  // ---------------------------------------------------------------------
  // One local

  /** The diagnostics `_check_default` reports for one attribute. */
  function DefaultDiagnostics(m: Matcher, name: string, value: Value, orig: Option<Value>): (r: seq<Diagnostic>)
    ensures |r| <= 1
    ensures r != [] <==> orig.Some? && !m.compatible(orig.value, m.mergeClasses(value))
    ensures forall d :: d in r ==> d.name == name && Some(d.binding) == orig
  {
    if orig.None? then []
    else
      var typ := m.mergeClasses(value);
      if m.compatible(orig.value, typ) then [] else [AnnotationTypeMismatch(typ, orig.value, name)]
  }

  /** The annotations dict after `_handle_initvar` for one local. */
  function InitVarAnnots(annots: map<string, Value>, name: string, value: Value, orig: Option<Value>): map<string, Value>
  {
    match MatchInitVar(value)
    case None => annots
    case Some(inner) => if orig.None? then annots - {name} else annots[name := inner]
  }

  /** The annotations dict after the loop body has seen local `l`. */
  function AnnotStep(annots: map<string, Value>, l: Local): map<string, Value>
  {
    if IsClassVar(l) then annots else InitVarAnnots(annots, l.name, l.value, l.orig)
  }

  /** The member table after the loop body has seen local `l`. */
  function MemberStep(members: map<string, Value>, l: Local): map<string, Value>
  {
    if IsClassVar(l) || MatchInitVar(l.value).Some? then members else members[l.name := l.value]
  }

  /** The attribute a non-ClassVar local becomes. */
  function AttrOf(l: Local): Attribute
  {
    match MatchInitVar(l.value)
    case Some(inner) => Attribute(l.name, Instance(inner), true, l.orig)
    case None =>
      if IsField(l.orig) then
        var field := l.orig.value;
        Attribute(l.name, l.value, field.init, if field.default.Some? then Some(field.typ) else None)
      else
        Attribute(l.name, l.value, true, l.orig)
  }

  function AttrStep(l: Local): seq<Attribute>
  {
    if IsClassVar(l) then [] else [AttrOf(l)]
  }

  // ---------------------------------------------------------------------
  // The whole loop, by recursion on the prefix already processed

  /** `own_attrs` after the loop has processed `ls`. */
  function OwnAttrs(ls: seq<Local>): seq<Attribute>
  {
    if ls == [] then [] else OwnAttrs(ls[..|ls| - 1]) + AttrStep(ls[|ls| - 1])
  }

  function AnnotsAfter(annots: map<string, Value>, ls: seq<Local>): map<string, Value>
  {
    if ls == [] then annots else AnnotStep(AnnotsAfter(annots, ls[..|ls| - 1]), ls[|ls| - 1])
  }

  function MembersAfter(members: map<string, Value>, ls: seq<Local>): map<string, Value>
  {
    if ls == [] then members else MemberStep(MembersAfter(members, ls[..|ls| - 1]), ls[|ls| - 1])
  }

  /** All diagnostics of the default checks, in attribute order. */
  function Diagnostics(m: Matcher, attrs: seq<Attribute>): seq<Diagnostic>
  {
    if attrs == [] then []
    else
      var a := attrs[|attrs| - 1];
      Diagnostics(m, attrs[..|attrs| - 1]) + DefaultDiagnostics(m, a.name, a.typ, a.default)
  }

  /** The member table after the `__init__` step: a generated `__init__` is
      added only when none exists and the decorator's `init` flag is set. */
  function FinalMembers(members: map<string, Value>, initArg: bool, initMethod: Value): (r: map<string, Value>)
    ensures INIT in members ==> INIT in r && r[INIT] == members[INIT]
    ensures INIT !in members && initArg ==> INIT in r && r[INIT] == initMethod
    ensures !initArg ==> r == members
    ensures forall n :: n != INIT ==> SameAt(r, members, n)
  {
    if INIT !in members && initArg then members[INIT := initMethod] else members
  }

  // ---------------------------------------------------------------------
  // Independent reference: the positions of the locals that become attributes

  /** Indices, in increasing order, of the locals that are not ClassVars. */
  function KeptIndices(ls: seq<Local>): seq<nat>
  {
    if ls == [] then []
    else KeptIndices(ls[..|ls| - 1]) + (if IsClassVar(ls[|ls| - 1]) then [] else [|ls| - 1])
  }

  /** `own_attrs` holds exactly one attribute per non-ClassVar local, in the
      order of the locals: the k-th attribute comes from the k-th kept local,
      kept positions strictly increase, and every non-ClassVar local is kept. */
  lemma {:induction false} OwnAttrsOrder(ls: seq<Local>)
    ensures |OwnAttrs(ls)| == |KeptIndices(ls)|
    ensures forall k :: 0 <= k < |KeptIndices(ls)| ==>
      (KeptIndices(ls)[k] < |ls| && !IsClassVar(ls[KeptIndices(ls)[k]])
       && OwnAttrs(ls)[k] == AttrOf(ls[KeptIndices(ls)[k]]))
    ensures forall k1, k2 :: 0 <= k1 < k2 < |KeptIndices(ls)| ==> KeptIndices(ls)[k1] < KeptIndices(ls)[k2]
    ensures forall i :: 0 <= i < |ls| && !IsClassVar(ls[i]) ==> i in KeptIndices(ls)
  {
    if ls != [] {
      var p := ls[..|ls| - 1];
      OwnAttrsOrder(p);
      forall k | 0 <= k < |KeptIndices(p)|
        ensures ls[KeptIndices(p)[k]] == p[KeptIndices(p)[k]]
      {
      }
    }
  }

  /** The attribute list names exactly the non-ClassVar locals. */
  lemma {:induction false} OwnAttrNames(ls: seq<Local>, n: string)
    ensures (exists k :: 0 <= k < |OwnAttrs(ls)| && OwnAttrs(ls)[k].name == n)
        <==> (exists i :: 0 <= i < |ls| && ls[i].name == n && !IsClassVar(ls[i]))
  {
    OwnAttrsOrder(ls);
    var own, idx := OwnAttrs(ls), KeptIndices(ls);
    if k :| 0 <= k < |own| && own[k].name == n {
      assert own[k] == AttrOf(ls[idx[k]]);
      assert ls[idx[k]].name == n && !IsClassVar(ls[idx[k]]);
    }
    if i :| 0 <= i < |ls| && ls[i].name == n && !IsClassVar(ls[i]) {
      assert i in idx;
      var k :| 0 <= k < |idx| && idx[k] == i;
      assert own[k] == AttrOf(ls[i]);
    }
  }

  // ---------------------------------------------------------------------
  // Entries of the annotations dict and of the member table

  /** A name no local carries keeps its annotation and its member entry. */
  lemma {:induction false} UntouchedName(annots: map<string, Value>, members: map<string, Value>,
                                          ls: seq<Local>, n: string)
    requires forall i :: 0 <= i < |ls| ==> ls[i].name != n
    ensures SameAt(AnnotsAfter(annots, ls), annots, n)
    ensures SameAt(MembersAfter(members, ls), members, n)
  {
    if ls != [] {
      UntouchedName(annots, members, ls[..|ls| - 1], n);
    }
  }

  /** With distinct names, the final entry for the name of local `i` is what
      local `i`'s own step makes of the initial entry. */
  lemma {:induction false} EntryOfLocal(annots: map<string, Value>, members: map<string, Value>,
                                         ls: seq<Local>, i: nat)
    requires DistinctNames(ls) && i < |ls|
    ensures SameAt(AnnotsAfter(annots, ls), AnnotStep(annots, ls[i]), ls[i].name)
    ensures SameAt(MembersAfter(members, ls), MemberStep(members, ls[i]), ls[i].name)
  {
    var p := ls[..|ls| - 1];
    if i == |ls| - 1 {
      UntouchedName(annots, members, p, ls[i].name);
    } else {
      EntryOfLocal(annots, members, p, i);
    }
  }

  /** Processing local `i` keeps the annotation of every later InitVar that
      `_handle_initvar` will delete. */
  lemma PendingAnnotationsKept(annots: map<string, Value>, ls: seq<Local>, i: nat)
    requires DistinctNames(ls) && i < |ls|
    requires forall j :: i <= j < |ls| && DeletesAnnotation(ls[j]) ==> ls[j].name in annots
    ensures forall j :: i < j < |ls| && DeletesAnnotation(ls[j]) ==> ls[j].name in AnnotStep(annots, ls[i])
  {
    forall j | i < j < |ls| && DeletesAnnotation(ls[j])
      ensures ls[j].name in AnnotStep(annots, ls[i])
    {
      assert ls[j].name != ls[i].name;
    }
  }

  /** Only InitVar locals change the annotations dict: a name none of whose
      locals is an (unskipped) InitVar keeps its annotation. */
  lemma {:induction false} OnlyInitVarsChangeAnnotations(annots: map<string, Value>, ls: seq<Local>, n: string)
    requires forall i :: 0 <= i < |ls| && ls[i].name == n ==> IsClassVar(ls[i]) || MatchInitVar(ls[i].value).None?
    ensures SameAt(AnnotsAfter(annots, ls), annots, n)
  {
    if ls != [] {
      OnlyInitVarsChangeAnnotations(annots, ls[..|ls| - 1], n);
    }
  }

  /** A ClassVar local produces no attribute and leaves both the member table
      and the annotations dict untouched. */
  lemma {:induction false} ClassVarSkipped(annots: map<string, Value>, members: map<string, Value>, ls: seq<Local>, i: nat)
    requires DistinctNames(ls) && i < |ls| && IsClassVar(ls[i])
    ensures SameAt(AnnotsAfter(annots, ls), annots, ls[i].name)
    ensures SameAt(MembersAfter(members, ls), members, ls[i].name)
    ensures forall k :: 0 <= k < |OwnAttrs(ls)| ==> OwnAttrs(ls)[k].name != ls[i].name
  {
    EntryOfLocal(annots, members, ls, i);
    OwnAttrNames(ls, ls[i].name);
  }

  /** An InitVar without a default loses its annotation; one with a default
      has it replaced by the unwrapped inner type. */
  lemma {:induction false} InitVarAnnotation(annots: map<string, Value>, ls: seq<Local>, i: nat, inner: Value)
    requires DistinctNames(ls) && i < |ls| && !IsClassVar(ls[i])
    requires MatchInitVar(ls[i].value) == Some(inner)
    ensures ls[i].orig.None? ==> ls[i].name !in AnnotsAfter(annots, ls)
    ensures ls[i].orig.Some? ==> ls[i].name in AnnotsAfter(annots, ls) && AnnotsAfter(annots, ls)[ls[i].name] == inner
  {
    EntryOfLocal(annots, map[], ls, i);
  }

  /** An InitVar local yields an attribute of the inner type's instance with
      `init` true and its assigned value as default, and leaves its member
      entry alone. */
  lemma {:induction false} InitVarAttribute(members: map<string, Value>, ls: seq<Local>, i: nat, inner: Value)
    requires DistinctNames(ls) && i < |ls| && !IsClassVar(ls[i])
    requires MatchInitVar(ls[i].value) == Some(inner)
    ensures SameAt(MembersAfter(members, ls), members, ls[i].name)
    ensures exists k :: (0 <= k < |OwnAttrs(ls)|
      && OwnAttrs(ls)[k] == Attribute(ls[i].name, Instance(inner), true, ls[i].orig))
  {
    EntryOfLocal(map[], members, ls, i);
    OwnAttrsOrder(ls);
    var k :| 0 <= k < |KeptIndices(ls)| && KeptIndices(ls)[k] == i;
    assert OwnAttrs(ls)[k] == AttrOf(ls[i]);
  }

  /** A local that is neither a ClassVar nor an InitVar sets its member entry
      to its declared value; its attribute takes `init` and the default's type
      from a `field()` result, or `init` true and the assigned value otherwise. */
  lemma {:induction false} PlainAttribute(members: map<string, Value>, ls: seq<Local>, i: nat)
    requires DistinctNames(ls) && i < |ls| && !IsClassVar(ls[i])
    requires MatchInitVar(ls[i].value).None?
    ensures ls[i].name in MembersAfter(members, ls) && MembersAfter(members, ls)[ls[i].name] == ls[i].value
    ensures IsField(ls[i].orig) ==> exists k :: (0 <= k < |OwnAttrs(ls)|
      && OwnAttrs(ls)[k] == Attribute(ls[i].name, ls[i].value, ls[i].orig.value.init,
                                      if ls[i].orig.value.default.Some? then Some(ls[i].orig.value.typ) else None))
    ensures !IsField(ls[i].orig) ==> exists k :: (0 <= k < |OwnAttrs(ls)|
      && OwnAttrs(ls)[k] == Attribute(ls[i].name, ls[i].value, true, ls[i].orig))
  {
    EntryOfLocal(map[], members, ls, i);
    OwnAttrsOrder(ls);
    var k :| 0 <= k < |KeptIndices(ls)| && KeptIndices(ls)[k] == i;
    assert OwnAttrs(ls)[k] == AttrOf(ls[i]);
  }

  /** An `__init__` that exists before the pass, and that no local rebinds,
      is the one the class ends up with. */
  lemma {:induction false} ExistingInitKept(members: map<string, Value>, ls: seq<Local>, initArg: bool, initMethod: Value)
    requires INIT in members
    requires forall i :: 0 <= i < |ls| ==> ls[i].name != INIT
    ensures INIT in FinalMembers(MembersAfter(members, ls), initArg, initMethod)
    ensures FinalMembers(MembersAfter(members, ls), initArg, initMethod)[INIT] == members[INIT]
  {
    UntouchedName(map[], members, ls, INIT);
  }

  // ---------------------------------------------------------------------
  // Diagnostics

  /** An attribute whose default is incompatible with its declared type is
      reported for the attribute's name, the declared class and the default. */
  predicate Mismatched(m: Matcher, a: Attribute)
  {
    a.default.Some? && !m.compatible(a.default.value, m.mergeClasses(a.typ))
  }

  /** Each attribute adds at most one diagnostic. */
  lemma {:induction false} DiagnosticsBound(m: Matcher, attrs: seq<Attribute>)
    ensures |Diagnostics(m, attrs)| <= |attrs|
  {
    if attrs != [] {
      DiagnosticsBound(m, attrs[..|attrs| - 1]);
    }
  }

  /** The diagnostics of two runs of attributes are those of the first
      followed by those of the second. */
  lemma {:induction false} DiagnosticsAppend(m: Matcher, xs: seq<Attribute>, ys: seq<Attribute>)
    ensures Diagnostics(m, xs + ys) == Diagnostics(m, xs) + Diagnostics(m, ys)
  {
    if ys != [] {
      var p := ys[..|ys| - 1];
      assert (xs + ys)[..|xs + ys| - 1] == xs + p;
      DiagnosticsAppend(m, xs, p);
    } else {
      assert xs + ys == xs;
    }
  }

  /** Every diagnostic names an attribute whose default is incompatible with
      its declared type. */
  lemma {:induction false} DiagnosticsSound(m: Matcher, attrs: seq<Attribute>, d: Diagnostic)
    requires d in Diagnostics(m, attrs)
    ensures exists a :: a in attrs && Mismatched(m, a) && a.name == d.name && a.default == Some(d.binding)
  {
    var p := attrs[..|attrs| - 1];
    var last := attrs[|attrs| - 1];
    if d in Diagnostics(m, p) {
      DiagnosticsSound(m, p, d);
      var a :| a in p && Mismatched(m, a) && a.name == d.name && a.default == Some(d.binding);
      assert a in attrs;
    } else {
      assert d in DefaultDiagnostics(m, last.name, last.typ, last.default);
      assert last in attrs;
    }
  }

  /** Every attribute whose default is incompatible with its declared type is
      reported, naming the attribute. */
  lemma {:induction false} DiagnosticsComplete(m: Matcher, attrs: seq<Attribute>, k: nat)
    requires k < |attrs| && Mismatched(m, attrs[k])
    ensures AnnotationTypeMismatch(m.mergeClasses(attrs[k].typ), attrs[k].default.value, attrs[k].name)
      in Diagnostics(m, attrs)
  {
    var p := attrs[..|attrs| - 1];
    if k < |p| {
      DiagnosticsComplete(m, p, k);
    }
  }
}
