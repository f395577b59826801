# model-mapper in Dafny

`model-mapper` provides the `Mapper` derive macro. The macro reads `#[mapper(...)]`
annotations on a struct or an enum and generates `From`/`TryFrom` conversions to and from
other types. This project models, and proves properties of, six parts:

- **The expansion's decision logic** (`model-mapper-macros`):
  - normalising the requests (`MapperOpts::items`);
  - the validation rules that append diagnostics (`validate` on requests, variants, fields
    and their `when` blocks);
  - the per-type option lookups (`rename_for`, `skip_for`, `hint_for`, ...);
  - choosing a field's conversion from its mapping hint (`build_into_for`);
  - the generator (`r#impl`, `derive_struct`, `derive_enum` and the four
    `derive_*_from`/`derive_*_into` functions).
- **The type-path utilities**: the `TypePathWrapper` parser and its equalities, the
  identifier collector, and the identifier-substituting fold.
- **The runtime container mappers** for `Vec`, `Option` and `HashMap`.

Paths, identifiers and expressions are datatypes compared structurally. Spans are opaque
tags. The generated code is a plan datatype (`ImplPlan`, `Conv`), not tokens.

Diagnostics are a `seq<Diagnostic>` that every validating method extends. Each such
method is proved to return `diags + Spec(...)`, where `Spec` is a function stating what
that check reports. The properties are lemmas about those functions: when a rule reports,
exactly what it reports, and when it is silent.

The mutable collector (`TypePathCollector`) is a class whose `idents` field the visit
methods update. Loops that build a result (`try_vec`, `try_hashmap`, the duplicate check,
the generation loop) are methods with invariants, proved equal to a specification function.

Modules, one per file:

| module | models |
|---|---|
| `Wrappers` | `Option` and `Result` |
| `Syntax` | spans, identifiers, the type AST (`TypePath`, `Path`, `Segment`, generic arguments), expressions and literals |
| `Options` | the parsed option records of `input.rs` (`MapperOpts`, `ItemInput`, `AddInput`, `VariantReceiver`, `FieldReceiver`, `MapperHint`, ...) |
| `TypePathExt` | `type_path_ext.rs` |
| `Diagnostics` | the messages, and the duplicate check shared by requests, variants and fields |
| `Requests` | `MapperOpts::items` |
| `Scoped` | the `*_for` lookups and request lookup by type |
| `ValidationRules` | what each `validate` reports, as functions, with the lemmas about them |
| `Validation` | the `validate` methods, proved against `ValidationRules` |
| `HintChain` | `build_into_for` and `build_into_for_inner` |
| `SynthesisPlan` | `derive_struct_from`, `derive_struct_into`, `derive_enum_from`, `derive_enum_into` |
| `Directions` | the fixed order of the emitted directions |
| `Expansion` | the whole expansion as a function, with its properties |
| `Synthesis` | `r#impl`, `derive_struct`, `derive_enum` and the validation pass as methods |
| `WithVec`, `WithOption`, `WithHashMap` | `with/vec.rs`, `with/option.rs`, `with/hashmap.rs` |

Two points where the macro's own documentation or options suggest more than its code does;
the model follows the code:

- A field hint may set several kinds at once as far as the conversion builder is concerned:
  `build_into_for_inner` (`model-mapper-macros/src/input.rs:789-843`) tries them in a fixed
  order: `from_with`/`into_with`, then `with`, `opt`, `iter`, `map`. The program itself
  refuses more than one: `ItemFieldInput::validate` counts them and reports "Only one of
  'with', 'into_with'/'from_with', 'opt', 'iter' or 'map' can be set"
  (`model-mapper-macros/src/input.rs:581-603`), for a field's own options and for each of
  its `when` blocks. The model keeps both: the precedence and the error.
- The derive macro's documentation (`model-mapper-macros/src/lib.rs:17-27` and `:66-67`)
  describes a `custom` argument on `from`, `into`, `try_from` and `try_into` that derives a
  custom function instead of the trait. The generator (`model-mapper-macros/src/model_mapper.rs`)
  never reads `custom`: it emits the trait `impl` for every requested direction. `custom`
  only silences the validation errors about additional fields and skipped members without
  defaults (`model-mapper-macros/src/input.rs:301-322`, `:358-379`, `:562-578`).

## Model

| member | source | states |
|---|---|---|
| TypePathExt.FromValue | model-mapper-macros/src/type_path_ext.rs:10-17 | a non-string literal is rejected with "unexpected literal type"; a string literal is accepted exactly when it parses as a type path, gives that path, and otherwise gives the parser's error as a custom error |
| TypePathExt.FromExpr | model-mapper-macros/src/type_path_ext.rs:19-28 | a path expression gives a wrapper with the same `qself` and path; a literal is handed to `from_value`; any other expression is rejected with "unexpected expression type" |
| TypePathExt.FromExprRoundTrip | model-mapper-macros/src/type_path_ext.rs:19-24 | writing a wrapper out as a path expression and reading it back gives the same wrapper |
| TypePathExt.AsRef | model-mapper-macros/src/type_path_ext.rs:31-43 | `as_ref`/`deref` give the inner path, which wraps back into the same wrapper |
| TypePathExt.Eq | model-mapper-macros/src/type_path_ext.rs:63-67 | two wrappers are equal iff their wrapped paths are |
| TypePathExt.EqPath | model-mapper-macros/src/type_path_ext.rs:51-55 | a wrapper equals a path iff it wraps that path |
| TypePathExt.PathEq | model-mapper-macros/src/type_path_ext.rs:57-61 | a path equals a wrapper iff the wrapper wraps it |
| TypePathExt.EqualityAgrees | model-mapper-macros/src/type_path_ext.rs:51-67 | the three comparisons agree with each other and are symmetric |
| TypePathExt.BarePathIdents | model-mapper-macros/src/type_path_ext.rs:74-83 | the collector gathers a path's identifier iff the path is bare (no `qself`, no leading `::`, one segment, no arguments); a bare path contributes only that identifier, and any other path only what its nested types contribute |
| TypePathExt.TypeIdents | model-mapper-macros/src/type_path_ext.rs:73-84 | the identifiers the collector gathers from a type, as a function; characterised by `BarePathIdents`, and `CollectIdents` proves the collector computes it |
| TypePathExt.TypePathCollector.constructor | model-mapper-macros/src/type_path_ext.rs:69-71 | a new collector holds no identifiers |
| TypePathExt.TypePathCollector.VisitType | model-mapper-macros/src/type_path_ext.rs:73-84 | visiting a type adds exactly the identifiers of the bare paths inside it |
| TypePathExt.TypePathCollector.VisitTypePath | model-mapper-macros/src/type_path_ext.rs:74-83 | visiting a path inserts its identifier when it is bare, then goes on into its nested types |
| TypePathExt.TypePathCollector.VisitSegment | model-mapper-macros/src/type_path_ext.rs:82 | visiting a segment adds the identifiers of the bare paths in its generic arguments |
| TypePathExt.TypePathCollector.VisitArg | model-mapper-macros/src/type_path_ext.rs:82 | visiting a generic argument adds the identifiers of the bare paths in it |
| TypePathExt.CollectIdents | model-mapper-macros/src/type_path_ext.rs:69-84 | a fresh collector run over a type returns exactly the identifiers of its bare paths |
| TypePathExt.FoldType | model-mapper-macros/src/type_path_ext.rs:90-104 | the replacer's fold over a type; characterised by `FoldTypeEmpty` (identity on an empty map) and `CollectFoldType` (it renames exactly the collected identifiers) |
| TypePathExt.FoldTypePath | model-mapper-macros/src/type_path_ext.rs:91-103 | the fold of one type path: a bare path whose identifier is mapped is replaced, any other path is rebuilt from its folded children; characterised by `FoldBarePath`, `FoldTypePathEmpty` and `CollectFoldTypePath` |
| TypePathExt.FoldBarePath | model-mapper-macros/src/type_path_ext.rs:91-101 | a bare path whose identifier is a key of the map has only that identifier replaced by the mapped one; `qself`, leading colon and arguments are unchanged and the path stays bare |
| TypePathExt.FoldTypeEmpty | model-mapper-macros/src/type_path_ext.rs:91-103 | with an empty map the fold gives every type back unchanged |
| TypePathExt.FoldTypePathEmpty | model-mapper-macros/src/type_path_ext.rs:102 | with an empty map a path is rebuilt unchanged |
| TypePathExt.CollectFoldType | model-mapper-macros/src/type_path_ext.rs:69-104 | collecting after the fold gives the collected identifiers renamed through the map: the fold renames exactly what the collector would gather |
| TypePathExt.CollectFoldTypePath | model-mapper-macros/src/type_path_ext.rs:91-103 | the same for one type path, whether it is replaced or rebuilt |
| TypePathExt.CollectFoldRebuiltPath | model-mapper-macros/src/type_path_ext.rs:102 | the same for a path the fold rebuilds rather than replaces |
| Requests.RequestsOf | model-mapper-macros/src/input.rs:231-285 | the `derive` blocks when there are any; otherwise, with a top-level `ty`, exactly one request carrying that `ty` and the top-level `from`, `into`, `try_from`, `try_into`, `add` and `ignore_extra` unchanged; the run aborts iff neither is given, and a run that does not abort has at least one request |
| Requests.RequestDiagnostics | model-mapper-macros/src/input.rs:231-285 | what `items()` reports: the illegal top-level options and the duplicate check when `derive` blocks exist, and "One of 'ty' or 'derive' must be set" when neither is given; characterised by `IllegalTopLevelExact`, `DuplicateCheckExact` and `CleanRequestsDistinct` |
| Requests.Items | model-mapper-macros/src/input.rs:231-285 | returns `RequestsOf(opts)` and appends exactly the diagnostics of the illegal top-level options and of the duplicate check |
| Requests.ReportIllegalFlags | model-mapper-macros/src/input.rs:236-253 | appends one "Illegal attribute when 'derive' is set" per top-level `ty`, `from`, `into`, `try_from`, `try_into`, `ignore_extra` that is set |
| Requests.ReportAddFields | model-mapper-macros/src/input.rs:254-258 | appends one such diagnostic at each top-level `add` entry, in order |
| Requests.ReportIllegalTopLevel | model-mapper-macros/src/input.rs:236-258 | appends exactly the illegal top-level option diagnostics, flags first, then one per `add` entry |
| Requests.IllegalTopLevelExact | model-mapper-macros/src/input.rs:236-258 | with `derive` blocks, nothing illegal is reported iff no top-level request option is set, and everything reported is "Illegal attribute when 'derive' is set" |
| Requests.CleanRequestsDistinct | model-mapper-macros/src/input.rs:259-284 | a request list that raised no diagnostic is non-empty and names pairwise distinct types |
| Diagnostics.DuplicateDiagnostics | model-mapper-macros/src/input.rs:259-267 | the duplicate check's output; characterised by `DuplicateCheckExact` (every report names a repeated type, every repeat is reported, silent iff the types are distinct) |
| Diagnostics.CheckDuplicates | model-mapper-macros/src/input.rs:259-267 | the nested loops append exactly `DuplicateDiagnostics(paths)` |
| Diagnostics.DuplicateRowComplete | model-mapper-macros/src/input.rs:260-266 | row `i` of the outer loop reports entry `j` whenever `i != j` and the two name the same type |
| Diagnostics.DuplicateRowSound | model-mapper-macros/src/input.rs:260-266 | a row reports only "This type is duplicated", and only at entries that have a twin |
| Diagnostics.DuplicateRowsSound | model-mapper-macros/src/input.rs:259-267 | the same for the first `n` rows |
| Diagnostics.DuplicateRowsComplete | model-mapper-macros/src/input.rs:259-267 | the first `n` rows report entry `j` whenever an earlier row names the same type |
| Diagnostics.DuplicateCheckExact | model-mapper-macros/src/input.rs:259-267 | the duplicate check reports at every entry that has a twin and only there, so it is silent iff the types are pairwise distinct; the same loop serves requests, variant `when` blocks (433-441) and field `when` blocks (640-648) |
| Scoped.FirstMatch | model-mapper-macros/src/input.rs:472-487 | the index found is the first entry naming the type; none is found iff no entry names it |
| Scoped.RequestIndexMeaning | model-mapper-macros/src/input.rs:353 | `find` over the requests gives the first request whose `ty` is the target, and none iff no request names it |
| Scoped.FindRequest | model-mapper-macros/src/input.rs:553 | the search loop returns `RequestIndex(derives, target)` |
| Scoped.ScopeFor | model-mapper-macros/src/input.rs:677-692 | the options used for a type are the first `when` block naming it if there is one; otherwise the element's own options when its `ty` is absent or names that type; otherwise none |
| Scoped.ResolveScope | model-mapper-macros/src/input.rs:677-692 | the search loop over the `when` blocks followed by the check of the own `ty` returns `ScopeFor` |
| Scoped.VariantRenameFor | model-mapper-macros/src/input.rs:472-487 | the first matching `when` block's `rename`, even when it has none; else the variant's own `rename` when its `ty` applies; else none |
| Scoped.AdditionalFor | model-mapper-macros/src/input.rs:489-514 | the same precedence for `add`; an empty list is reported as none |
| Scoped.NonEmpty | model-mapper-macros/src/input.rs:489-514 | an `add` list is reported as none exactly when it is empty, and as itself otherwise |
| Scoped.VariantSkipFor | model-mapper-macros/src/input.rs:516-531 | the same precedence for a variant's `skip` |
| Scoped.IgnoreExtraFor | model-mapper-macros/src/input.rs:533-548 | the same precedence for `ignore_extra`; false when nothing applies |
| Scoped.FieldRenameFor | model-mapper-macros/src/input.rs:677-692 | the same precedence for a field's `rename` |
| Scoped.FieldSkipFor | model-mapper-macros/src/input.rs:694-709 | the same precedence for a field's `skip` |
| Scoped.OtherTyFor | model-mapper-macros/src/input.rs:711-726 | the same precedence for `other_ty` |
| Scoped.HintFor | model-mapper-macros/src/input.rs:728-743 | the matching `when` block's hint, else the field's own hint when its `ty` applies, else none |
| Scoped.UnscopedFieldUniform | model-mapper-macros/src/input.rs:677-743 | a field with no `ty` and no `when` block has the same rename, skip, `other_ty` and hint for every type |
| Scoped.TypedFieldOnlyThere | model-mapper-macros/src/input.rs:677-743 | a field whose own `ty` names another type, with no `when` block for this one, contributes no rename, skip, `other_ty` or hint to it |
| Scoped.WhenOverridesOwn | model-mapper-macros/src/input.rs:677-743 | when a `when` block names the type, the field's own options have no effect on any lookup for it |
| Scoped.VariantWhenOverridesOwn | model-mapper-macros/src/input.rs:472-548 | the same for the variant lookups |
| ValidationRules.UndefaultedMembers | model-mapper-macros/src/input.rs:299 | the filter keeps exactly the `add` entries without a default |
| ValidationRules.AddDiagnosticsQuiet | model-mapper-macros/src/input.rs:300-333 | the struct `add` check is silent iff every entry without a default has both `custom` on `into`/`try_into` and a `ty`, or the request derives neither `into` nor `try_into` |
| ValidationRules.AddDiagnosticsSound | model-mapper-macros/src/input.rs:300-333 | every diagnostic sits on an entry without a default, either "Enable `default` ... or include `custom`" because `custom` is missing, or "Provide a field type" because `ty` is missing and `into` or `try_into` is derived |
| ValidationRules.AddDiagnosticsComplete | model-mapper-macros/src/input.rs:300-333 | every entry without a default gets the first message when `into`/`try_into` lacks `custom`, and the second when it has no `ty` while `into` or `try_into` is derived |
| ValidationRules.AddEntriesQuiet | model-mapper-macros/src/input.rs:316-332 | the pass over the entries is silent iff no flag applies to any entry |
| ValidationRules.AddEntriesSound | model-mapper-macros/src/input.rs:316-332 | every diagnostic of the pass belongs to an entry, for one of the two reasons |
| ValidationRules.AddEntriesComplete | model-mapper-macros/src/input.rs:316-332 | every entry gets each message whose reason holds for it |
| ValidationRules.EnumAddExact | model-mapper-macros/src/input.rs:335-347 | on an enum, every `add` with a `ty` is reported at the `ty`, every `add` without a default is reported when `from` or `try_from` is derived, and nothing else is reported |
| ValidationRules.EnumAddQuiet | model-mapper-macros/src/input.rs:335-347 | the enum `add` check is silent iff no `add` has a `ty` and each has a default unless neither `from` nor `try_from` is derived |
| ValidationRules.EnumItemQuiet | model-mapper-macros/src/input.rs:290-348 | a request on an enum raises nothing iff it derives some direction and its `add` entries pass the enum rules |
| ValidationRules.StructItemQuiet | model-mapper-macros/src/input.rs:290-348 | a request on a struct raises nothing iff it derives some direction and its `add` entries pass the struct rules |
| ValidationRules.ItemDiagnostics | model-mapper-macros/src/input.rs:288-348 | what `ItemInput::validate` reports; characterised by `MissingDirectionReport`, `StructItemQuiet`, `EnumItemQuiet`, `AddDiagnosticsSound`, `AddDiagnosticsComplete` and `EnumAddExact` |
| ValidationRules.VariantItemDiagnostics | model-mapper-macros/src/input.rs:351-410 | what `ItemVariantInput::validate` reports; characterised by `VariantSkipReport`, `UnknownTypeReport` and `VariantItemFound` |
| ValidationRules.VariantDiagnostics | model-mapper-macros/src/input.rs:412-470 | what `VariantReceiver::validate` reports; characterised by `CleanVariantWhen` |
| ValidationRules.FieldItemDiagnostics | model-mapper-macros/src/input.rs:551-607 | what `ItemFieldInput::validate` reports; characterised by `FieldSkipReport`, `FieldItemHintReport`, `UnknownTypeReport` and `FieldItemClean` |
| ValidationRules.FieldDiagnostics | model-mapper-macros/src/input.rs:609-675 | what `FieldReceiver::validate` reports; characterised by `PlainFieldAccepted` and `CleanFieldWhen` |
| ValidationRules.MissingDirectionReport | model-mapper-macros/src/input.rs:292-297 | "One of 'from', 'into', 'try_from' or 'try_into' must be set" is reported iff none of the four is set |
| ValidationRules.HintCountConflict | model-mapper-macros/src/input.rs:581-603 | the hint count (`with` 1, `from_with`/`into_with` together 1, `opt`, `iter`, `map` 1 each) exceeds one iff two kinds of hint are set |
| ValidationRules.FieldItemHintReport | model-mapper-macros/src/input.rs:581-603 | once its request is found, a field's `when` block is reported with "Only one of ..." iff two kinds of hint are set |
| ValidationRules.FieldSkipReport | model-mapper-macros/src/input.rs:555-580 | a `when` block's `skip` without a default is reported iff the request's `from` or `try_from` lacks `custom` |
| ValidationRules.VariantSkipReport | model-mapper-macros/src/input.rs:391-405 | a variant `when` block's `skip` without a default is reported iff the request derives `into` or `try_into` |
| ValidationRules.UnknownTypeReport | model-mapper-macros/src/input.rs:604-606 | a `when` block whose `ty` names no request gets exactly "There is no derive defined for this type" and nothing else; one that names a request never gets it (also 406-408) |
| ValidationRules.RequestFound | model-mapper-macros/src/input.rs:660-671 | a request is always found by its own `ty` |
| ValidationRules.FieldPerRequestFinds | model-mapper-macros/src/input.rs:660-671 | checking a field's own options once per request never reports a missing request |
| ValidationRules.PlainPerRequestQuiet | model-mapper-macros/src/input.rs:660-671 | a field without options raises nothing in the per-request checks |
| ValidationRules.PlainFieldAccepted | model-mapper-macros/src/input.rs:609-675 | a field without any option is accepted under every list of requests |
| ValidationRules.FieldItemClean | model-mapper-macros/src/input.rs:551-607 | a field `when` block that raised nothing names a requested type and sets at most one hint |
| ValidationRules.FieldItemsClean | model-mapper-macros/src/input.rs:672-674 | the same for every block of a clean list |
| ValidationRules.CleanFieldWhen | model-mapper-macros/src/input.rs:609-675 | a field with `when` blocks that raised nothing has no `ty`, `rename`, `skip` or hint of its own (`other_ty` is not checked), its blocks name pairwise distinct requested types, and each sets at most one hint |
| ValidationRules.VariantItemFound | model-mapper-macros/src/input.rs:351-410 | a variant `when` block that raised nothing names a requested type |
| ValidationRules.VariantItemsFound | model-mapper-macros/src/input.rs:465-467 | the same for every block of a clean list |
| ValidationRules.CleanVariantWhen | model-mapper-macros/src/input.rs:412-470 | a variant with `when` blocks that raised nothing has no option of its own and its blocks name pairwise distinct requested types |
| Validation.FilterUndefaulted | model-mapper-macros/src/input.rs:299 | returns `Undefaulted(add)`, the entries without a default in order |
| Validation.ReportAddEntries | model-mapper-macros/src/input.rs:316-332 | appends exactly `AddEntriesDiagnostics` for the entries and the two flags |
| Validation.CheckAdditional | model-mapper-macros/src/input.rs:299-333 | appends exactly `AddDiagnostics(add, d)`: the filter, the `missing_custom`/`has_into` flags, then one pass |
| Validation.CheckEnumAdditional | model-mapper-macros/src/input.rs:335-347 | appends exactly `EnumAddDiagnostics(add, item)` |
| Validation.ValidateItem | model-mapper-macros/src/input.rs:290-348 | appends exactly `ItemDiagnostics(item, isEnum)` |
| Validation.CheckFoundVariantItem | model-mapper-macros/src/input.rs:354-405 | appends the `add` checks and then the `skip` check of a variant `when` block |
| Validation.ValidateVariantItem | model-mapper-macros/src/input.rs:351-410 | appends exactly `VariantItemDiagnostics(vi, derives)` |
| Validation.ReportVariantMixing | model-mapper-macros/src/input.rs:414-432 | with `when` blocks present, appends one "Illegal attribute if 'when' is set" per own option of the variant that is set (`ty`, `rename`, each `add`, `skip`, `ignore_extra`) |
| Validation.ValidateVariantPerRequest | model-mapper-macros/src/input.rs:453-464 | the loop over the requests appends exactly `VariantPerRequest(v, derives, derives)` |
| Validation.ValidateVariantOwn | model-mapper-macros/src/input.rs:444-464 | appends the checks of the variant's own options, for its `ty` or for every request |
| Validation.ValidateVariantWhen | model-mapper-macros/src/input.rs:414-441 | appends the mixing checks and the duplicate check of the `when` blocks |
| Validation.ValidateVariantItems | model-mapper-macros/src/input.rs:465-467 | the loop appends the diagnostics of each `when` block in order |
| Validation.ValidateVariant | model-mapper-macros/src/input.rs:412-470 | appends exactly `VariantDiagnostics(v, derives)`, the variant's fields included |
| Validation.CheckFoundFieldItem | model-mapper-macros/src/input.rs:555-603 | appends the `skip` check and then, at the field, "Only one of ..." when more than one hint is counted |
| Validation.ValidateFieldItem | model-mapper-macros/src/input.rs:551-607 | appends exactly `FieldItemDiagnostics(fi, span, derives)` |
| Validation.ReportFieldMixing | model-mapper-macros/src/input.rs:611-639 | with `when` blocks present, appends one "Illegal attribute if 'when' is set" per own option of the field that is set (`ty`, `rename`, `skip`, and each hint) |
| Validation.ValidateFieldPerRequest | model-mapper-macros/src/input.rs:660-671 | the loop over the requests appends exactly `FieldPerRequest(f, derives, derives)` |
| Validation.ValidateFieldOwn | model-mapper-macros/src/input.rs:651-671 | appends the checks of the field's own options, for its `ty` or for every request |
| Validation.ValidateFieldWhen | model-mapper-macros/src/input.rs:611-648 | appends the mixing checks and the duplicate check of the `when` blocks |
| Validation.ValidateFieldItems | model-mapper-macros/src/input.rs:672-674 | the loop appends the diagnostics of each `when` block in order |
| Validation.ValidateField | model-mapper-macros/src/input.rs:609-675 | appends exactly `FieldDiagnostics(f, derives)` |
| Validation.ValidateFields | model-mapper-macros/src/input.rs:469 | the loop over the fields appends each field's diagnostics in order |
| HintChain.BuildFromHint | model-mapper-macros/src/input.rs:789-837 | the conversion chosen from a hint; characterised by `HintPrecedence` (which hint wins and what it wraps), `BuildFromHintModed`, `DirectionsAgree` and `ModesShareSkeleton` |
| HintChain.BuildIntoForInner | model-mapper-macros/src/input.rs:761-844 | the default conversion without a hint, else the conversion chosen from it; characterised by `DefaultConv`, `HintPrecedence` and `BuildIntoForInnerModed` |
| HintChain.InnerHint | model-mapper-macros/src/input.rs:799-836 | the hint an `opt`, `iter` or `map` hint passes down: its explicit hint, none for the bare word; used by `HintPrecedence` |
| HintChain.DefaultConv | model-mapper-macros/src/input.rs:839-843 | with no hint the conversion is `TryInto::try_into` exactly in `try` mode and `Into::into` otherwise |
| HintChain.CheckWith | model-mapper-macros/src/input.rs:763-787 | a path is called through `map_value`; any other expression is used as is, wrapped in `Ok` in `try` mode; nothing without a function |
| HintChain.BuildIntoFor | model-mapper-macros/src/input.rs:745-758 | `?` is appended iff the conversion is fallible, and every node of the chosen expression agrees with that mode |
| HintChain.BuildFromHintModed | model-mapper-macros/src/input.rs:797-843 | in `try` mode every step yields a `Result` (`Ok`, `transpose`, collecting into a `Result`), in the infallible mode none does, and no `?` appears inside |
| HintChain.BuildIntoForInnerModed | model-mapper-macros/src/input.rs:761-844 | the same holds with no hint at all, where the default conversion is used |
| HintChain.HintPrecedence | model-mapper-macros/src/input.rs:789-843 | the direction's `from_with`/`into_with` wins, then `with`, then `opt`, `iter`, `map` in that order, each wrapping the conversion built for its inner hint (the default one for the bare word); with none of them the element is converted by the default `into`/`try_into` conversion |
| HintChain.DirectionsAgree | model-mapper-macros/src/input.rs:789-795 | without `from_with`/`into_with` anywhere in the hint, both directions build the same expression |
| HintChain.ModesShareSkeleton | model-mapper-macros/src/input.rs:797-843 | the fallible and infallible expressions follow the same hints and differ only in mode |
| SynthesisPlan.OtherName | model-mapper-macros/src/model_mapper.rs:146-150 | a field's name on the other type is its `rename` for that type if any, else its own name or position |
| SynthesisPlan.FieldValue | model-mapper-macros/src/model_mapper.rs:158-171 | in `try` mode the field's `try_with` function if any, else `TryInto::try_into`, both followed by `?`; otherwise its `with` function if any, else `Into::into`; always applied to the bound name |
| SynthesisPlan.DefaultEntries | model-mapper-macros/src/model_mapper.rs:136-141 | `include_default` gives one `name: Default::default()` per name, in order |
| SynthesisPlan.BindsComplete | model-mapper-macros/src/model_mapper.rs:131-154 | every field that is not skipped is bound in the deconstruction pattern |
| SynthesisPlan.BindsSound | model-mapper-macros/src/model_mapper.rs:131-154 | every binding belongs to a field that is not skipped |
| SynthesisPlan.ConvertedComplete | model-mapper-macros/src/model_mapper.rs:156-172 | every field that is not skipped gets a converted value |
| SynthesisPlan.ConvertedSound | model-mapper-macros/src/model_mapper.rs:156-172 | every converted value belongs to a field that is not skipped |
| SynthesisPlan.SkippedNamesComplete | model-mapper-macros/src/model_mapper.rs:136-141 | every skipped named field is among the defaulted names |
| SynthesisPlan.SkippedNamesSound | model-mapper-macros/src/model_mapper.rs:136-141 | every defaulted name is that of a skipped field |
| SynthesisPlan.CoverageOf | model-mapper-macros/src/model_mapper.rs:134-172 | a named field is defaulted iff it is skipped and converted iff it is not |
| SynthesisPlan.StructFrom | model-mapper-macros/src/model_mapper.rs:120-200 | the `impl` `derive_struct_from` generates; characterised by `DeriveHeader`, `StructFromCoverage` and `StructFromBinds` |
| SynthesisPlan.StructFromCoverage | model-mapper-macros/src/model_mapper.rs:120-200 | in `derive_struct_from` each named field of the struct is built by `Default::default()` iff it is skipped for the other type, and from its converted value iff it is not |
| SynthesisPlan.StructFromBinds | model-mapper-macros/src/model_mapper.rs:131-154 | in `derive_struct_from` the other value's renamed field is bound to the struct field's own name iff the field is not skipped; the request's ignored fields are matched by the rest pattern |
| SynthesisPlan.LocalsDistinct | model-mapper-macros/src/model_mapper.rs:145-153 | two fields never bind the same local name |
| SynthesisPlan.StructInto | model-mapper-macros/src/model_mapper.rs:202-280 | the `impl` `derive_struct_into` generates; characterised by `DeriveHeader` and `StructIntoCoverage` |
| SynthesisPlan.StructIntoCoverage | model-mapper-macros/src/model_mapper.rs:202-280 | in `derive_struct_into` a field is bound iff it is not skipped, and then converted into its renamed field; a skipped named field is matched by the rest pattern; each request-level ignored field is defaulted |
| SynthesisPlan.VariantOtherName | model-mapper-macros/src/model_mapper.rs:296-320 | a variant's name on the other type is its `rename` for that type if any, else its own name |
| SynthesisPlan.PlanVariants | model-mapper-macros/src/model_mapper.rs:293-351 | one variant plan per variant |
| SynthesisPlan.IgnoredArms | model-mapper-macros/src/model_mapper.rs:348-351 | one catch-all `Default::default()` arm per ignored variant name, in order |
| SynthesisPlan.MappedArmsComplete | model-mapper-macros/src/model_mapper.rs:295-347 | every variant that is not skipped gets its mapped arm |
| SynthesisPlan.MappedArmsSound | model-mapper-macros/src/model_mapper.rs:295-347 | every mapped arm belongs to a variant that is not skipped |
| SynthesisPlan.SkippedArmsComplete | model-mapper-macros/src/model_mapper.rs:448-451 | every skipped variant gets a `Default::default()` arm |
| SynthesisPlan.SkippedArmsSound | model-mapper-macros/src/model_mapper.rs:448-451 | every such arm belongs to a skipped variant |
| SynthesisPlan.FromArmsExact | model-mapper-macros/src/model_mapper.rs:293-351 | a variant's mapped arm is in the match iff it is not skipped; every catch-all arm comes from the extra arms |
| SynthesisPlan.IntoArmsExact | model-mapper-macros/src/model_mapper.rs:393-451 | a variant's mapped arm is in the match iff it is not skipped, and its catch-all arm iff it is |
| SynthesisPlan.EnumFromArm | model-mapper-macros/src/model_mapper.rs:296-347 | the arm `derive_enum_from` generates for one variant; placed in the match by `EnumFromArms` |
| SynthesisPlan.EnumIntoArm | model-mapper-macros/src/model_mapper.rs:396-447 | the arm `derive_enum_into` generates for one variant; placed in the match by `EnumIntoArms` |
| SynthesisPlan.EnumFrom | model-mapper-macros/src/model_mapper.rs:282-380 | the `impl` `derive_enum_from` generates; characterised by `DeriveHeader` and `EnumFromArms` |
| SynthesisPlan.EnumInto | model-mapper-macros/src/model_mapper.rs:382-480 | the `impl` `derive_enum_into` generates; characterised by `DeriveHeader` and `EnumIntoArms` |
| SynthesisPlan.EnumFromArms | model-mapper-macros/src/model_mapper.rs:282-380 | `derive_enum_from` maps a variant iff it is not skipped for the other type, and its catch-all arms are exactly one per request-level ignored variant of the other type |
| SynthesisPlan.EnumIntoArms | model-mapper-macros/src/model_mapper.rs:382-480 | `derive_enum_into` maps a variant iff it is not skipped for the other type, and turns it into `Default::default()` iff it is |
| Directions.Directions | model-mapper-macros/src/model_mapper.rs:66-85 | a direction is emitted iff its option is present, in the order from, into, try_from, try_into; nothing iff none is set |
| Directions.StepsInOrder | model-mapper-macros/src/model_mapper.rs:66-85 | the `if` chain emits exactly one item per requested direction, in that order |
| Directions.StepsNonEmpty | model-mapper-macros/src/model_mapper.rs:66-85 | a request that sets a direction emits something |
| Directions.StepsMember | model-mapper-macros/src/model_mapper.rs:66-85 | every emitted item comes from one requested direction |
| Expansion.Derive | model-mapper-macros/src/model_mapper.rs:58-118 | the `impl` of one request in one direction; characterised by `DeriveHeader` |
| Expansion.RequestImpls | model-mapper-macros/src/model_mapper.rs:58-118 | the `impl`s of one request, in the order `derive_struct`/`derive_enum` emit them; characterised by `StructSteps`, `EnumSteps` and `StepsInOrder` |
| Expansion.AllImpls | model-mapper-macros/src/model_mapper.rs:39-55 | the `impl`s of all requests, in order; characterised by `AllImplsStep`, `AllImplsCount`, `AllImplsBetween` and `FallibleImplsWrapOk` |
| Expansion.CheckDiagnostics | model-mapper-macros/src/model_mapper.rs:27-36 | what the validation pass reports; characterised by `CleanItemsHaveDirections` and the `ValidationRules` lemmas |
| Expansion.Expand | model-mapper-macros/src/model_mapper.rs:13-56 | the outcome of `r#impl`; characterised by `FailureIsReported` and `GeneratedCoversRequests` |
| Expansion.DeriveHeader | model-mapper-macros/src/model_mapper.rs:174-199 | a fallible direction is `TryFrom` with `::anyhow::Error` and returns its value in `Ok(...)`, an infallible one is `From` and returns it directly; from/try_from convert the other type into the annotated one, into/try_into the reverse; structs get a constructor, enums a match |
| Expansion.StructSteps | model-mapper-macros/src/model_mapper.rs:58-87 | a struct request emits `derive_struct_from`/`derive_struct_into` for from, into, try_from, try_into in that order |
| Expansion.EnumSteps | model-mapper-macros/src/model_mapper.rs:89-118 | an enum request emits `derive_enum_from`/`derive_enum_into` in the same order |
| Expansion.FailureIsReported | model-mapper-macros/src/model_mapper.rs:13-56 | a failed expansion has reported at least one diagnostic; code is generated iff there are requests and neither request normalisation nor validation reported anything |
| Expansion.CleanItemsHaveDirections | model-mapper-macros/src/model_mapper.rs:28 | once the request validation is clean, every request sets some direction |
| Expansion.AllImplsCount | model-mapper-macros/src/model_mapper.rs:42-53 | when every request sets a direction, the loop emits at least one `impl` per request |
| Expansion.AllImplsBetween | model-mapper-macros/src/model_mapper.rs:42-53 | every emitted `impl` converts between the annotated type and some request's type |
| Expansion.FallibleImplsWrapOk | model-mapper-macros/src/model_mapper.rs:42-53 | every emitted `impl` returns its value in `Ok` iff it is `TryFrom`, whose error type is `::anyhow::Error` |
| Expansion.GeneratedCoversRequests | model-mapper-macros/src/model_mapper.rs:13-56 | a successful expansion comes from at least one request, its requests name distinct types, it holds at least one `impl` per request, and each `impl` converts to or from a requested type |
| Synthesis.EmitIfPresent | model-mapper-macros/src/model_mapper.rs:67-69 | appends the `impl` exactly when its option is present |
| Synthesis.DeriveStruct | model-mapper-macros/src/model_mapper.rs:58-87 | returns the struct request's `impl`s, `RequestImpls(ident, derive, StructData(fields), h)` |
| Synthesis.DeriveEnum | model-mapper-macros/src/model_mapper.rs:89-118 | returns the enum request's `impl`s |
| Synthesis.ValidateItems | model-mapper-macros/src/model_mapper.rs:28 | validating every request appends exactly `ItemsDiagnostics(derives, isEnum)` |
| Synthesis.ValidateVariants | model-mapper-macros/src/model_mapper.rs:33-35 | validating every variant appends exactly `VariantsDiagnostics(vs, derives)` |
| Synthesis.ValidateData | model-mapper-macros/src/model_mapper.rs:29-36 | validating the fields or the variants appends exactly `DataDiagnostics` |
| Synthesis.ValidateAll | model-mapper-macros/src/model_mapper.rs:27-36 | the whole validation pass appends exactly `CheckDiagnostics(opts, derives)` |
| Synthesis.DeriveRequest | model-mapper-macros/src/model_mapper.rs:43-52 | one request goes through the struct or the enum generator |
| Synthesis.GenerateAll | model-mapper-macros/src/model_mapper.rs:39-55 | the loop returns the `impl`s of every request in order, `AllImpls(ident, derives, data, h)` |
| Synthesis.Impl | model-mapper-macros/src/model_mapper.rs:13-56 | `r#impl` returns `Expand(opts, h)`: abort without requests, stop on any diagnostic, generate otherwise |
| WithVec.Vec | model-mapper/src/with/vec.rs:13-18 | same length, and element `i` is the conversion of input element `i` |
| WithVec.TryCollect | model-mapper/src/with/vec.rs:44-53 | what `try_vec` returns; characterised by `TryCollectMeaning`, `TryCollectStops` and `TryCollectOfTotal` |
| WithVec.TryCollectMeaning | model-mapper/src/with/vec.rs:44-53 | `Ok` iff every element converts, and then the converted elements in order; otherwise the error of the first failing element |
| WithVec.TryCollectStops | model-mapper/src/with/vec.rs:48-51 | once an element has failed, later elements change nothing |
| WithVec.TryVec | model-mapper/src/with/vec.rs:44-53 | the push loop that returns at the first failing `?` computes `TryCollect(from, conv)` |
| WithVec.TryCollectOfTotal | model-mapper/src/with/vec.rs:28-41 | when no conversion can fail, the fallible mapper returns `Ok` of what the infallible one returns |
| WithVec.VecCompose | model-mapper/src/with/vec.rs:3-10 | mapping twice is mapping once with the composed conversion |
| WithOption.OptionMap | model-mapper/src/with/option.rs:15-20 | `None` stays `None`; `Some(x)` becomes `Some` of the converted `x` |
| WithOption.AddOption | model-mapper/src/with/option.rs:31-36 | always `Some` of the converted value |
| WithOption.Transpose | model-mapper/src/with/option.rs:58-63 | `None` becomes `Ok(None)`, `Some(Ok(y))` becomes `Ok(Some(y))`, `Some(Err(e))` becomes `Err(e)` |
| WithOption.TryOption | model-mapper/src/with/option.rs:58-63 | `None` gives `Ok(None)`; `Some(x)` gives `Ok(Some(y))` when `x` converts to `y`, and the conversion's error otherwise |
| WithOption.TryAddOption | model-mapper/src/with/option.rs:74-79 | `Ok(Some(y))` when the value converts to `y`, and the conversion's error otherwise |
| WithOption.TryRemoveOption | model-mapper/src/with/option.rs:90-99 | `None` gives the error "The value was required but not present"; `Some(f)` gives the converted value or the conversion's error |
| WithOption.AddOptionIsMapOfSome | model-mapper/src/with/option.rs:31-44 | adding an option is mapping over a present value, in both modes |
| WithOption.TryOptionOfTotal | model-mapper/src/with/option.rs:46-63 | when no conversion can fail, the fallible mappers agree with the infallible ones |
| WithOption.RemoveUndoesAdd | model-mapper/src/with/option.rs:90-99 | `try_remove_option` hands back bare what `try_option` would wrap in `Some`, and fails with the message exactly when `try_option` gives `Ok(None)` |
| WithHashMap.HashMap | model-mapper/src/with/hashmap.rs:17-25 | the keys are exactly the converted input keys, and every entry is the converted key and value of some input entry |
| WithHashMap.EntryFailure | model-mapper/src/with/hashmap.rs:70-72 | an entry fails iff its key or its value fails to convert, and a key failure is reported before a value failure |
| WithHashMap.TryCollectMap | model-mapper/src/with/hashmap.rs:60-74 | what `try_hashmap` returns; characterised by `TryCollectMapMeaning`, `TryCollectMapEntries`, `TryCollectMapStops` and `TryCollectMapOfTotal` |
| WithHashMap.TryCollectMapMeaning | model-mapper/src/with/hashmap.rs:60-74 | `Ok` iff every entry converts; otherwise the failure of the first failing entry in iteration order |
| WithHashMap.TryCollectMapEntries | model-mapper/src/with/hashmap.rs:69-73 | on success the keys are exactly the converted input keys, and every entry is the converted key and value of some input entry |
| WithHashMap.TryCollectMapStops | model-mapper/src/with/hashmap.rs:70-72 | once an entry has failed, later entries change nothing |
| WithHashMap.TryHashMap | model-mapper/src/with/hashmap.rs:60-74 | the insert loop that returns at the first failing `?` computes `TryCollectMap` |
| WithHashMap.TryCollectMapOfTotal | model-mapper/src/with/hashmap.rs:40-57 | when nothing can fail, the fallible mapper returns `Ok` of what the infallible one returns |

## Left out

- Attribute parsing by `darling` and `syn`, and token emission by `quote!`. The option
  records are datatypes, the parsed text of a `ty = "..."` literal is the function parameter
  `parse` of `FromValue`, and the generated code is a plan.
- Generics and `where` clauses of the annotated type (`split_for_impl`). They are copied
  into every `impl` unchanged and decide nothing.
- `crate_name("model-mapper")`, which reads Cargo metadata. The runtime crate's path is a
  constant inside the `MapValue` plan node.
- `macro_field_utils` (`FieldsHelper`, `VariantsHelper`) is not part of this model. Only
  its visible effects are modelled: filtering, binding, converting, `include_default` and
  the rest pattern of `ignore_extra`.
- `model_mapper.rs` calls helpers that `input.rs` does not define: `with_for`,
  `try_with_for`, `ignore_for` and `derive.ignore`. They are the function-valued fields of
  `SynthesisPlan.Helpers`. `is_skip_for` is `skip_for(..).is_some()`, and `is_present` is
  `is_some`.
- Synthesis.ValidateItems: `model_mapper.rs:28` calls `ItemInput::validate` with one
  argument. The model uses the two-argument version of `input.rs` and passes whether the
  annotated type is an enum.
- `build_into_for` is not called by the generator shown. It is modelled on its own, in
  `HintChain`.
- `proc_macro_error`'s global error list, `abort_call_site!` and `abort_if_dirty()` are
  modelled by an explicit diagnostic sequence. Any diagnostic makes the expansion `Failed`.
- TypePathExt.TypeIdents, TypePathExt.FoldType: only paths, references, slices and tuples
  are walked into. Bare function types (`fn(T) -> U`), trait objects (`dyn Trait<T>`),
  `impl Trait<T>`, arrays (`[T; N]`), raw pointers, parenthesized types and macro types are
  all `LeafType`, kept opaque. In generic arguments, associated-type bindings (`Item = T`),
  parenthesized argument lists (`Fn(A) -> B`), consts and lifetimes are all `OtherArg`, kept
  opaque as well. `syn`'s visitor and folder walk into the types nested in all of these, so
  the real collector gathers, and the real replacer renames, the `T` in `Box<dyn Fn(T)>`,
  `fn(T)` or `impl Into<T>`; the model neither collects nor renames identifiers there.
- Spans have no meaning beyond equality. Message texts are constants of `Diagnostics`.
- Conversions inside generated code have no runtime meaning here. The runtime mappers
  take the element conversion as a function parameter, so one member stands for the plain
  version, the `_extra` version and the `ExtraInto`/`TryExtraInto` impl.
- WithHashMap.TryCollectMapMeaning: `HashMap` iteration order is unspecified. The input is
  an arbitrary sequence of pairs, so "the first failing entry" is first in that sequence.
  A later duplicate key overwrites an earlier one.
- WithOption.TryRemoveOption: an `anyhow::Error` is either the fixed message or the
  wrapped conversion error; its display text and backtrace are not modelled.
- `with/chrono.rs`, `with/with_chrono.rs`, `with/with_serde.rs`, `with/error.rs`,
  `with/mod.rs`, and both `lib.rs` files. They are thin wrappers over other crates, trait
  declarations or the macro entry point.
