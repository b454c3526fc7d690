# pytype's `@dataclass` emulation, modelled in Dafny

pytype is a static type analyzer for Python. When it sees a class decorated
with `@dataclasses.dataclass`, it does not run the decorator. It reproduces
the decorator's effect on its own abstract class object instead. The rules
it follows are those of PEP 557's sections "Class variables", "Init-only
variables" and "Default factory functions". This project models that
emulation, `pytype/overlays/dataclass_overlay.py`, and proves its rules.

Within that file the model covers four things:

- the collection loop of `Dataclass.decorate`. It walks the class locals in
  first-annotation order and sorts each one into one of three kinds:
  `ClassVar[T]`, which is skipped; `InitVar[T]`, whose annotation is deleted
  or unwrapped; a plain declaration, possibly assigned `field(...)`. It
  writes the member table, builds the own attributes and checks each default
  against its declared type.
- the storing of `base_attrs + own_attrs` under `__dataclass_fields__`.
- the installation of a generated `__init__` when the class has none and the
  decorator's `init` flag is set.
- the symbolic evaluation of `field(...)` (`Field.call`, `_get_default_var`,
  `FieldInstance`) and the classifiers `is_field`, `match_initvar` and
  `match_classvar`.

Layout:

- `values.dfy` (module `Values`): the analyzer's abstract values as a closed
  datatype. `typing.ClassVar[T]` and `dataclasses.InitVar[T]` are
  `Generic(container, T)`, and a `field()` result is `FieldInstance(typ,
  init, default)`. The module also holds `Attribute`, `Local`, `Diagnostic`
  and the three classifiers.
- `fields.dfy` (module `Fields`): `field()` as pure functions. The
  `DuplicateKeyword` error is a `Result` value.
- `collect.dfy` (module `Collect`): the collection pass as pure functions of
  the ordered locals, plus the lemmas that state its rules. The functions
  are defined by recursion on the prefix already processed, so they match
  the loop step by step.
- `dataclass.dfy` (module `Dataclass`): the class object (`InterpreterClass`,
  with its member table, annotations dict and metadata) and the error log as
  Dafny classes. `decorate`, `_handle_initvar` and `_check_default` are
  methods that update them in place. Each method is proved to compute the
  `Collect` functions.
- `end_to_end.dfy` (module `EndToEnd`): `field()` feeding the collection
  pass, and two small concrete classes.

Collaborators whose code is not part of this model are parameters:

- `get_class_locals`: the ordered `locals` sequence.
- `merge_classes` and "`bad_matches` is empty": a `Matcher` of two functions.
- `get_base_class_attrs`, `make_init`, calling the default factory, and
  `get_type_from_default`: function parameters.
- `self.args[cls]["init"]`: a boolean parameter.

Notes on the code:

- An InitVar rewrites or deletes its entry in the class's *annotations dict*
  (`_handle_initvar`, lines 50-61). It does not change the member table.
- The stored list is exactly `base_attrs + own_attrs` (line 101). Any
  replacement of an inherited attribute by an own one of the same name
  happens inside `get_base_class_attrs`, which is not part of this model.
- For a plain local, the member entry is set to the declared value (line 85).
  This happens before the `field()` default is resolved.

## Model

| member | source | states |
|---|---|---|
| `Values.MatchClassVar` | pytype/overlays/dataclass_overlay.py:169-171 | returns `T` exactly when the value is `typing.ClassVar[T]`, and `None` for every other value |
| `Values.MatchInitVar` | pytype/overlays/dataclass_overlay.py:164-166 | returns `T` exactly when the value is `dataclasses.InitVar[T]`, and `None` for every other value |
| `Values.MarkersExclusive` | pytype/overlays/dataclass_overlay.py:77-80 | no declared value is both a ClassVar and an InitVar, so the order of the two checks in the loop cannot matter |
| `Values.IsField` | pytype/overlays/dataclass_overlay.py:160-161 | holds exactly when a value is present and is a `FieldInstance` |
| `Fields.GetDefaultVar` | pytype/overlays/dataclass_overlay.py:142-157 | fails with `DuplicateKeyword("default")` if and only if both `default` and `default_factory` are given; otherwise `default` yields that value, `default_factory` yields the factory's zero-argument result, and neither yields no default |
| `Fields.KwargInit` | pytype/overlays/dataclass_overlay.py:134 | `init` is true when the keyword is absent and equals the given constant when present |
| `Fields.FieldCall` | pytype/overlays/dataclass_overlay.py:130-140 | `field()` fails exactly on the duplicate keyword; otherwise it yields a `FieldInstance` that carries the `init` flag and the selected default, typed as the default's type or as unsolvable when there is no default |
| `Fields.FieldCallIsField` | pytype/overlays/dataclass_overlay.py:160-161 | every successful `field()` result is recognised by `is_field`, and it has a default if and only if `default` or `default_factory` was given |
| `Collect.DefaultDiagnostics` | pytype/overlays/dataclass_overlay.py:40-48 | the default check reports nothing when there is no default; otherwise it reports exactly one diagnostic, naming the attribute and its default, if and only if the default is incompatible with the merged declared class |
| `Collect.FinalMembers` | pytype/overlays/dataclass_overlay.py:105-109 | an existing `__init__` is never overwritten; a generated one is added when none exists and the `init` flag is set; with the flag off the table is unchanged; no other entry changes |
| `Collect.OwnAttrsOrder` | pytype/overlays/dataclass_overlay.py:73-97 | `own_attrs` holds exactly one attribute per non-ClassVar local, in the iteration order of the locals. The k-th attribute comes from the k-th kept local, kept positions strictly increase, and every non-ClassVar local is kept |
| `Collect.OwnAttrNames` | pytype/overlays/dataclass_overlay.py:76-97 | an attribute with a given name exists if and only if some non-ClassVar local has that name |
| `Collect.UntouchedName` | pytype/overlays/dataclass_overlay.py:76-91 | a name that no local carries keeps its annotation and its member entry |
| `Collect.EntryOfLocal` | pytype/overlays/dataclass_overlay.py:76-91 | with distinct names, the final annotation and member entry for a local's name are what that local's own step makes of the initial ones |
| `Collect.OnlyInitVarsChangeAnnotations` | pytype/overlays/dataclass_overlay.py:50-61 | an annotation changes only for a name that some non-skipped InitVar local carries; every other annotation entry is unchanged |
| `Collect.ClassVarSkipped` | pytype/overlays/dataclass_overlay.py:77-79 | a ClassVar local produces no attribute and leaves its member entry and its annotation untouched |
| `Collect.InitVarAnnotation` | pytype/overlays/dataclass_overlay.py:50-61 | an InitVar without a default loses its annotation; one with a default has its annotation replaced by the unwrapped inner type |
| `Collect.InitVarAttribute` | pytype/overlays/dataclass_overlay.py:80-83 | an InitVar local yields the attribute (name, instance of the inner type, `init` true, its assigned value as default) and leaves its member entry untouched |
| `Collect.PlainAttribute` | pytype/overlays/dataclass_overlay.py:84-91 | a plain local sets its member entry to its declared value. With a `field()` value, its attribute takes the field's `init`, and its default is the field's type when the field has a default and absent otherwise. Without one, `init` is true and the default is the assigned value |
| `Collect.ExistingInitKept` | pytype/overlays/dataclass_overlay.py:105-109 | an `__init__` that exists before decoration, and that no local rebinds, is the `__init__` the class ends up with |
| `Collect.DiagnosticsBound` | pytype/overlays/dataclass_overlay.py:94 | the default checks add at most one diagnostic per attribute |
| `Collect.DiagnosticsSound` | pytype/overlays/dataclass_overlay.py:40-48 | every diagnostic names an attribute whose default is present and incompatible with its declared class |
| `Collect.DiagnosticsComplete` | pytype/overlays/dataclass_overlay.py:40-48 | every attribute whose default is incompatible with its declared class is reported, with its name, declared class and default |
| `Dataclass.ErrorLog.AnnotationTypeMismatch` | pytype/overlays/dataclass_overlay.py:47-48 | appends one annotation-type-mismatch diagnostic to the log |
| `Dataclass.CheckDefault` | pytype/overlays/dataclass_overlay.py:40-48 | appends to the log exactly the diagnostics `DefaultDiagnostics` describes |
| `Dataclass.HandleInitvar` | pytype/overlays/dataclass_overlay.py:50-61 | returns the InitVar's inner type, or `None` for a non-InitVar; deletes or retypes that name's annotation, and touches nothing else |
| `Dataclass.CollectLocal` | pytype/overlays/dataclass_overlay.py:77-97 | one iteration of the loop: the attribute, the annotations dict, the member table and the log after it are those of the per-local step functions |
| `Dataclass.CollectOwnAttrs` | pytype/overlays/dataclass_overlay.py:73-97 | the collection loop returns exactly `OwnAttrs` of the locals, and leaves the annotations dict, member table and log as the collection functions say |
| `Dataclass.Decorate` | pytype/overlays/dataclass_overlay.py:63-109 | the annotations dict, member table and log end as the collection functions say. The metadata holds `base_attrs + own_attrs` under `__dataclass_fields__`, so the own attributes are its suffix. `__init__` is installed only when absent and requested |
| `EndToEnd.FieldCallAttribute` | pytype/overlays/dataclass_overlay.py:86-89 | a plain local assigned `field(...)` becomes an attribute with the call's `init` (true when absent). Its default is the type of `default`, else of the factory's result, else absent |
| `EndToEnd.MismatchedDefaultReported` | pytype/overlays/dataclass_overlay.py:40-48 | for `x: int = "hello"` exactly one mismatch is reported, and it names `x` |

## Left out

- `DataclassOverlay.__init__` and the two `make` class methods (lines 21-38 and 126-128): these register the overlay and import a stub through the loader, which is plumbing and I/O.
- `Field.call`'s `match_args`: the check of the call against its signature is not part of this model. Arguments are taken as already matched.
- `get_kwarg` is not part of this model. `Fields.KwargInit` reads `init` when it is a boolean constant and otherwise uses the default `True`.
- The program point (`node`) that the analyzer threads through every call is not modelled. No advance of analysis state is represented.
- `get_class_locals`, `get_base_class_attrs`, `make_init`, `merge_classes`, `bad_matches`, calling the default factory and `get_type_from_default` are not part of this model. They enter as parameters and nothing is assumed about them. In particular, the model does not say where an inherited attribute overridden by an own attribute ends up.
- An analyzer variable is reduced to one value. So `factory, = factory_var.data` cannot fail with several bindings, and `bad[0][orig]` is that one value.
- `logging`, and `FieldInstance`'s `SimpleAbstractValue` base with its `cls = unsolvable`, are not modelled.
- The annotations dict is a separate field of the class object. In pytype it lives inside the member table under `__annotations__`. The model keeps the two apart, so a local that rebinds `__annotations__` itself is not represented.
- `Dataclass.Decorate`, `Dataclass.CollectOwnAttrs` and `Dataclass.HandleInitvar` require every InitVar local without a default to be in the annotations dict. The source's `del annots[name]` would raise `KeyError` otherwise. Locals come from annotations, so the source never meets that case.
