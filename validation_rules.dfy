/**
 * The rules the `validate` methods of the parsed options enforce: for each of them, a
 * function giving exactly the diagnostics it reports, and the properties of those rules.
 */
module ValidationRules {
  import opened Wrappers
  import opened Syntax
  import opened TypePathExt
  import opened Options
  import opened Diagnostics
  import opened Scoped
  import opened Requests

  // ---------------------------------------------------------------------------
  // Additional fields of a struct request, or of a variant
  // ---------------------------------------------------------------------------

  /** The additional items that have no default value, in order. */
  function Undefaulted(add: seq<AddInput>): seq<AddInput>
  {
    if |add| == 0 then []
    else
      var last := add[|add| - 1];
      Undefaulted(add[..|add| - 1]) + (if last.default.None? then [last] else [])
  }

  /** The filter keeps exactly the items without a default, and never adds any. */
  lemma {:induction false} UndefaultedMembers(add: seq<AddInput>)
    ensures |Undefaulted(add)| <= |add|
    ensures forall a :: a in Undefaulted(add) <==> a in add && a.default.None?
  {
    if |add| > 0 {
      UndefaultedMembers(add[..|add| - 1]);
      assert forall a :: a in add <==> a in add[..|add| - 1] || a == add[|add| - 1];
    }
  }

  /** The request derives `into` or `try_into`. */
  predicate HasInto(d: ItemInput)
  {
    d.into.Some? || d.tryInto.Some?
  }

  /** `into` or `try_into` is derived as a trait rather than through a custom function. */
  predicate MissingCustomInto(d: ItemInput)
  {
    LacksCustom(d.into) || LacksCustom(d.tryInto)
  }

  /** `from` or `try_from` is derived as a trait rather than through a custom function. */
  predicate MissingCustomFrom(d: ItemInput)
  {
    LacksCustom(d.from) || LacksCustom(d.tryFrom)
  }

  function AddEntryDiagnostics(e: AddInput, missingCustom: bool, hasInto: bool): seq<Diagnostic>
  {
    EmitIf(missingCustom, e.field.span, DefaultOrCustomInto) + EmitIf(e.ty.None? && hasInto, e.field.span, ProvideFieldType)
  }

  function AddEntriesDiagnostics(items: seq<AddInput>, missingCustom: bool, hasInto: bool): seq<Diagnostic>
  {
    if |items| == 0 then []
    else AddEntriesDiagnostics(items[..|items| - 1], missingCustom, hasInto)
         + AddEntryDiagnostics(items[|items| - 1], missingCustom, hasInto)
  }

  /** What the additional-items check reports for `add` under request `d`. */
  function AddDiagnostics(add: seq<AddInput>, d: ItemInput): seq<Diagnostic>
  {
    var items := Undefaulted(add);
    if items != [] && (MissingCustomInto(d) || HasInto(d)) then
      AddEntriesDiagnostics(items, MissingCustomInto(d), HasInto(d))
    else []
  }

  lemma {:induction false} AddEntriesQuiet(items: seq<AddInput>, missingCustom: bool, hasInto: bool)
    ensures AddEntriesDiagnostics(items, missingCustom, hasInto) == [] <==>
      forall e :: e in items ==> !missingCustom && (e.ty.Some? || !hasInto)
  {
    if |items| > 0 {
      AddEntriesQuiet(items[..|items| - 1], missingCustom, hasInto);
      assert forall e :: e in items <==> e in items[..|items| - 1] || e == items[|items| - 1];
    }
  }

  lemma {:induction false} AddEntriesSound(items: seq<AddInput>, missingCustom: bool, hasInto: bool)
    ensures forall x :: x in AddEntriesDiagnostics(items, missingCustom, hasInto) ==>
      exists e :: e in items && x.span == e.field.span
        && ((x.msg == DefaultOrCustomInto && missingCustom) || (x.msg == ProvideFieldType && e.ty.None? && hasInto))
  {
    if |items| > 0 {
      AddEntriesSound(items[..|items| - 1], missingCustom, hasInto);
      var e := items[|items| - 1];
      assert e in items;
      forall x | x in AddEntriesDiagnostics(items[..|items| - 1], missingCustom, hasInto)
        ensures exists e :: (e in items && x.span == e.field.span &&
          ((x.msg == DefaultOrCustomInto && missingCustom) || (x.msg == ProvideFieldType && e.ty.None? && hasInto)))
      {
        var e' :| e' in items[..|items| - 1] && x.span == e'.field.span
          && ((x.msg == DefaultOrCustomInto && missingCustom) || (x.msg == ProvideFieldType && e'.ty.None? && hasInto));
        assert e' in items;
      }
    }
  }

  /**
   * The additional-items check is silent exactly when every item without a default can
   * be built by the request: its `into`/`try_into` use custom functions and it has a `ty`,
   * or the request derives neither `into` nor `try_into`.
   */
  lemma AddDiagnosticsQuiet(add: seq<AddInput>, d: ItemInput)
    ensures AddDiagnostics(add, d) == [] <==>
      forall a :: a in add && a.default.None? ==> !MissingCustomInto(d) && (a.ty.Some? || !HasInto(d))
  {
    UndefaultedMembers(add);
    AddEntriesQuiet(Undefaulted(add), MissingCustomInto(d), HasInto(d));
  }

  /** Every diagnostic of the check sits on an additional item without a default, for its reason. */
  lemma AddDiagnosticsSound(add: seq<AddInput>, d: ItemInput)
    ensures forall x :: x in AddDiagnostics(add, d) ==>
      exists a :: a in add && a.default.None? && x.span == a.field.span
        && ((x.msg == DefaultOrCustomInto && MissingCustomInto(d)) || (x.msg == ProvideFieldType && a.ty.None? && HasInto(d)))
  {
    UndefaultedMembers(add);
    AddEntriesSound(Undefaulted(add), MissingCustomInto(d), HasInto(d));
  }

  lemma {:induction false} AddEntriesComplete(items: seq<AddInput>, missingCustom: bool, hasInto: bool)
    ensures forall e :: e in items && missingCustom ==>
      Diagnostic(e.field.span, DefaultOrCustomInto) in AddEntriesDiagnostics(items, missingCustom, hasInto)
    ensures forall e :: e in items && e.ty.None? && hasInto ==>
      Diagnostic(e.field.span, ProvideFieldType) in AddEntriesDiagnostics(items, missingCustom, hasInto)
  {
    if |items| > 0 {
      AddEntriesComplete(items[..|items| - 1], missingCustom, hasInto);
      assert forall e :: e in items <==> e in items[..|items| - 1] || e == items[|items| - 1];
    }
  }

  /**
   * Every additional item without a default gets "Enable `default` here ..." when `into` or
   * `try_into` lacks `custom`, and "Provide a field type ..." when it has no `ty` while
   * `into` or `try_into` is derived.
   */
  lemma AddDiagnosticsComplete(add: seq<AddInput>, d: ItemInput)
    ensures forall a :: a in add && a.default.None? && MissingCustomInto(d) ==>
      Diagnostic(a.field.span, DefaultOrCustomInto) in AddDiagnostics(add, d)
    ensures forall a :: a in add && a.default.None? && a.ty.None? && HasInto(d) ==>
      Diagnostic(a.field.span, ProvideFieldType) in AddDiagnostics(add, d)
  {
    UndefaultedMembers(add);
    AddEntriesComplete(Undefaulted(add), MissingCustomInto(d), HasInto(d));
  }

  // ---------------------------------------------------------------------------
  // ItemInput::validate
  // ---------------------------------------------------------------------------

  predicate NoDirection(item: ItemInput)
  {
    item.from.None? && item.into.None? && item.tryFrom.None? && item.tryInto.None?
  }

  function EnumAddEntryDiagnostics(a: AddInput, d: ItemInput): seq<Diagnostic>
  {
    (if a.ty.Some? then [Diagnostic(a.ty.value.span, IllegalForEnums)] else [])
    + EmitIf(a.default.None? && (d.from.Some? || d.tryFrom.Some?), a.field.span, MissingEnumDefault)
  }

  function EnumAddDiagnostics(add: seq<AddInput>, d: ItemInput): seq<Diagnostic>
  {
    if |add| == 0 then []
    else EnumAddDiagnostics(add[..|add| - 1], d) + EnumAddEntryDiagnostics(add[|add| - 1], d)
  }

  /** What validating one request reports; `isEnum` says whether the annotated type is an enum. */
  function ItemDiagnostics(item: ItemInput, isEnum: bool): seq<Diagnostic>
  {
    EmitIf(NoDirection(item), item.path.span, MissingDirection)
    + (if isEnum then EnumAddDiagnostics(item.add, item) else AddDiagnostics(item.add, item))
  }

  lemma {:induction false} EnumAddQuiet(add: seq<AddInput>, d: ItemInput)
    ensures EnumAddDiagnostics(add, d) == [] <==>
      forall a :: a in add ==> a.ty.None? && (a.default.Some? || (d.from.None? && d.tryFrom.None?))
  {
    if |add| > 0 {
      EnumAddQuiet(add[..|add| - 1], d);
      assert forall a :: a in add <==> a in add[..|add| - 1] || a == add[|add| - 1];
    }
  }

  /**
   * A request on an enum is accepted iff it derives something and every additional
   * variant has no `ty`, and has a default unless neither `from` nor `try_from` is derived.
   */
  lemma EnumItemQuiet(item: ItemInput)
    ensures ItemDiagnostics(item, true) == [] <==>
      !NoDirection(item)
      && forall a :: a in item.add ==> a.ty.None? && (a.default.Some? || (item.from.None? && item.tryFrom.None?))
  {
    EnumAddQuiet(item.add, item);
  }

  /** A request on a struct is accepted iff it derives something and its additional fields pass. */
  lemma StructItemQuiet(item: ItemInput)
    ensures ItemDiagnostics(item, false) == [] <==>
      !NoDirection(item)
      && forall a :: a in item.add && a.default.None? ==> !MissingCustomInto(item) && (a.ty.Some? || !HasInto(item))
  {
    AddDiagnosticsQuiet(item.add, item);
  }

  /** `x` is one of the two diagnostics the enum rules attach to the additional variant `a`. */
  predicate EnumAddReason(a: AddInput, d: ItemInput, x: Diagnostic)
  {
    (a.ty.Some? && x == Diagnostic(a.ty.value.span, IllegalForEnums))
    || (a.default.None? && (d.from.Some? || d.tryFrom.Some?) && x == Diagnostic(a.field.span, MissingEnumDefault))
  }

  lemma {:induction false} EnumAddExact(add: seq<AddInput>, d: ItemInput)
    ensures forall a :: a in add && a.ty.Some? ==> Diagnostic(a.ty.value.span, IllegalForEnums) in EnumAddDiagnostics(add, d)
    ensures forall a :: a in add && a.default.None? && (d.from.Some? || d.tryFrom.Some?) ==>
      Diagnostic(a.field.span, MissingEnumDefault) in EnumAddDiagnostics(add, d)
    ensures forall x :: x in EnumAddDiagnostics(add, d) ==> exists a :: a in add && EnumAddReason(a, d, x)
  {
    if |add| > 0 {
      var init := add[..|add| - 1];
      var last := add[|add| - 1];
      EnumAddExact(init, d);
      assert forall a :: a in add <==> a in init || a == last;
      forall x | x in EnumAddDiagnostics(add, d)
        ensures exists a :: a in add && EnumAddReason(a, d, x)
      {
        if x in EnumAddDiagnostics(init, d) {
          var a :| a in init && EnumAddReason(a, d, x);
          assert a in add;
        } else {
          assert last in add;
        }
      }
    }
  }

  /** "One of 'from', ..." is reported iff the request sets no direction. */
  lemma MissingDirectionReport(item: ItemInput, isEnum: bool)
    ensures Diagnostic(item.path.span, MissingDirection) in ItemDiagnostics(item, isEnum) <==> NoDirection(item)
  {
    if isEnum {
      EnumAddExact(item.add, item);
    } else {
      AddDiagnosticsSound(item.add, item);
    }
  }

  // ---------------------------------------------------------------------------
  // ItemVariantInput::validate and VariantReceiver::validate
  // ---------------------------------------------------------------------------

  function VariantSkipDiagnostics(skip: Option<Spanned<Override<SkipInput>>>, d: ItemInput): seq<Diagnostic>
  {
    if skip.Some? && SkipLacksDefault(skip.value.value) && HasInto(d) then
      [Diagnostic(skip.value.span, VariantSkipNeedsDefault)]
    else []
  }

  /** The checks on the options of a variant for one type: the request for that type must exist. */
  function VariantItemDiagnostics(vi: ItemVariantInput, derives: seq<ItemInput>): seq<Diagnostic>
  {
    match RequestIndex(derives, vi.path.value.inner)
    case None => [Diagnostic(vi.path.span, NoDeriveForType)]
    case Some(k) => AddDiagnostics(vi.add, derives[k]) + VariantSkipDiagnostics(vi.skip, derives[k])
  }

  /** The options written on the variant itself, as a block for the type `path`. */
  function OwnVariantItem(v: VariantReceiver, path: Spanned<TypePathWrapper>): ItemVariantInput
  {
    ItemVariantInput(path, v.rename, v.add, v.skip, v.ignoreExtra)
  }

  function VariantMixingOptions(v: VariantReceiver): seq<Diagnostic>
  {
    IfSet(v.path, IllegalWhenScoped) + IfSet(v.rename, IllegalWhenScoped) + AddFieldDiagnostics(v.add, IllegalWhenScoped)
  }

  function VariantMixingFlags(v: VariantReceiver): seq<Diagnostic>
  {
    IfSet(v.skip, IllegalWhenScoped) + EmitIf(v.ignoreExtra.value, v.ignoreExtra.span, IllegalWhenScoped)
  }

  function SpannedVariantWhenPaths(items: seq<ItemVariantInput>): seq<Spanned<TypePathWrapper>>
  {
    if |items| == 0 then [] else SpannedVariantWhenPaths(items[..|items| - 1]) + [items[|items| - 1].path]
  }

  lemma {:induction false} SpannedVariantWhenPathsAt(items: seq<ItemVariantInput>)
    ensures |SpannedVariantWhenPaths(items)| == |items|
    ensures forall i :: 0 <= i < |items| ==> SpannedVariantWhenPaths(items)[i] == items[i].path
  {
    if |items| > 0 {
      SpannedVariantWhenPathsAt(items[..|items| - 1]);
    }
  }

  /** With `when` blocks present, no option may sit on the variant itself and no type may repeat. */
  function VariantWhenChecks(v: VariantReceiver): seq<Diagnostic>
  {
    if v.items != [] then
      VariantMixingOptions(v) + VariantMixingFlags(v) + DuplicateDiagnostics(SpannedVariantWhenPaths(v.items))
    else []
  }

  /** The variant's own options checked once for each request in `ds`. */
  function VariantPerRequest(v: VariantReceiver, ds: seq<ItemInput>, derives: seq<ItemInput>): seq<Diagnostic>
  {
    if |ds| == 0 then []
    else VariantPerRequest(v, ds[..|ds| - 1], derives) + VariantItemDiagnostics(OwnVariantItem(v, ds[|ds| - 1].path), derives)
  }

  function VariantOwnDiagnostics(v: VariantReceiver, derives: seq<ItemInput>): seq<Diagnostic>
  {
    if v.path.Some? then VariantItemDiagnostics(OwnVariantItem(v, v.path.value), derives)
    else VariantPerRequest(v, derives, derives)
  }

  function VariantItemsDiagnostics(items: seq<ItemVariantInput>, derives: seq<ItemInput>): seq<Diagnostic>
  {
    if |items| == 0 then []
    else VariantItemsDiagnostics(items[..|items| - 1], derives) + VariantItemDiagnostics(items[|items| - 1], derives)
  }

  function VariantDiagnostics(v: VariantReceiver, derives: seq<ItemInput>): seq<Diagnostic>
  {
    VariantWhenChecks(v) + VariantOwnDiagnostics(v, derives)
    + VariantItemsDiagnostics(v.items, derives) + FieldsDiagnostics(v.fields, derives)
  }

  function VariantsDiagnostics(vs: seq<VariantReceiver>, derives: seq<ItemInput>): seq<Diagnostic>
  {
    if |vs| == 0 then []
    else VariantsDiagnostics(vs[..|vs| - 1], derives) + VariantDiagnostics(vs[|vs| - 1], derives)
  }

  // ---------------------------------------------------------------------------
  // ItemFieldInput::validate and FieldReceiver::validate
  // ---------------------------------------------------------------------------

  /** The number of hint kinds set; `into_with` and `from_with` count as one kind. */
  function HintCount(h: MapperHint): nat
  {
    (if h.withExpr.Some? then 1 else 0)
    + (if h.fromWith.Some? || h.intoWith.Some? then 1 else 0)
    + (if h.opt.Some? then 1 else 0)
    + (if h.iter.Some? then 1 else 0)
    + (if h.mapHint.Some? then 1 else 0)
  }

  /** Two different hint kinds are set together. */
  predicate HintsConflict(h: MapperHint)
  {
    var w := h.withExpr.Some?;
    var fw := h.fromWith.Some? || h.intoWith.Some?;
    var o := h.opt.Some?;
    var it := h.iter.Some?;
    var m := h.mapHint.Some?;
    (w && (fw || o || it || m)) || (fw && (o || it || m)) || (o && (it || m)) || (it && m)
  }

  /** More than one hint is counted exactly when two kinds of hint conflict. */
  lemma HintCountConflict(h: MapperHint)
    ensures HintCount(h) > 1 <==> HintsConflict(h)
  {
  }

  function FieldSkipDiagnostics(skip: Option<Spanned<Override<SkipInput>>>, d: ItemInput): seq<Diagnostic>
  {
    if skip.Some? && SkipLacksDefault(skip.value.value) && MissingCustomFrom(d) then
      [Diagnostic(skip.value.span, DefaultOrCustomFrom)]
    else []
  }

  /** The checks on the options of a field for one type; `span` locates the field. */
  function FieldItemDiagnostics(fi: ItemFieldInput, span: Span, derives: seq<ItemInput>): seq<Diagnostic>
  {
    match RequestIndex(derives, fi.path.value.inner)
    case None => [Diagnostic(fi.path.span, NoDeriveForType)]
    case Some(k) => FieldSkipDiagnostics(fi.skip, derives[k]) + EmitIf(HintCount(fi.hint) > 1, span, OnlyOneHint)
  }

  /** The options written on the field itself, as a block for the type `path`. */
  function OwnFieldItem(f: FieldReceiver, path: Spanned<TypePathWrapper>): ItemFieldInput
  {
    ItemFieldInput(path, f.rename, f.skip, f.otherTy, f.hint)
  }

  /** Where field diagnostics point: the field's name, or its type for a tuple field. */
  function FieldSpan(f: FieldReceiver): Span
  {
    if f.ident.Some? then f.identSpan else f.tySpan
  }

  function FieldMixingOptions(f: FieldReceiver): seq<Diagnostic>
  {
    IfSet(f.path, IllegalWhenScoped) + IfSet(f.rename, IllegalWhenScoped) + IfSet(f.skip, IllegalWhenScoped)
  }

  function FieldMixingWith(f: FieldReceiver): seq<Diagnostic>
  {
    IfSet(f.hint.withExpr, IllegalWhenScoped) + IfSet(f.hint.intoWith, IllegalWhenScoped)
    + IfSet(f.hint.fromWith, IllegalWhenScoped)
  }

  function FieldMixingShape(f: FieldReceiver): seq<Diagnostic>
  {
    IfSet(f.hint.opt, IllegalWhenScoped) + IfSet(f.hint.iter, IllegalWhenScoped) + IfSet(f.hint.mapHint, IllegalWhenScoped)
  }

  function SpannedFieldWhenPaths(items: seq<ItemFieldInput>): seq<Spanned<TypePathWrapper>>
  {
    if |items| == 0 then [] else SpannedFieldWhenPaths(items[..|items| - 1]) + [items[|items| - 1].path]
  }

  lemma {:induction false} SpannedFieldWhenPathsAt(items: seq<ItemFieldInput>)
    ensures |SpannedFieldWhenPaths(items)| == |items|
    ensures forall i :: 0 <= i < |items| ==> SpannedFieldWhenPaths(items)[i] == items[i].path
  {
    if |items| > 0 {
      SpannedFieldWhenPathsAt(items[..|items| - 1]);
    }
  }

  /** With `when` blocks present, no option may sit on the field itself and no type may repeat. */
  function FieldWhenChecks(f: FieldReceiver): seq<Diagnostic>
  {
    if f.items != [] then
      FieldMixingOptions(f) + FieldMixingWith(f) + FieldMixingShape(f) + DuplicateDiagnostics(SpannedFieldWhenPaths(f.items))
    else []
  }

  function FieldPerRequest(f: FieldReceiver, ds: seq<ItemInput>, derives: seq<ItemInput>): seq<Diagnostic>
  {
    if |ds| == 0 then []
    else FieldPerRequest(f, ds[..|ds| - 1], derives) + FieldItemDiagnostics(OwnFieldItem(f, ds[|ds| - 1].path), FieldSpan(f), derives)
  }

  function FieldOwnDiagnostics(f: FieldReceiver, derives: seq<ItemInput>): seq<Diagnostic>
  {
    if f.path.Some? then FieldItemDiagnostics(OwnFieldItem(f, f.path.value), FieldSpan(f), derives)
    else FieldPerRequest(f, derives, derives)
  }

  function FieldItemsDiagnostics(items: seq<ItemFieldInput>, span: Span, derives: seq<ItemInput>): seq<Diagnostic>
  {
    if |items| == 0 then []
    else FieldItemsDiagnostics(items[..|items| - 1], span, derives) + FieldItemDiagnostics(items[|items| - 1], span, derives)
  }

  function FieldDiagnostics(f: FieldReceiver, derives: seq<ItemInput>): seq<Diagnostic>
  {
    FieldWhenChecks(f) + FieldOwnDiagnostics(f, derives) + FieldItemsDiagnostics(f.items, FieldSpan(f), derives)
  }

  /** The diagnostics of the first `n` fields. */
  function FieldsUpTo(fs: seq<FieldReceiver>, n: nat, derives: seq<ItemInput>): seq<Diagnostic>
    requires n <= |fs|
  {
    if n == 0 then [] else FieldsUpTo(fs, n - 1, derives) + FieldDiagnostics(fs[n - 1], derives)
  }

  function FieldsDiagnostics(fs: seq<FieldReceiver>, derives: seq<ItemInput>): seq<Diagnostic>
  {
    FieldsUpTo(fs, |fs|, derives)
  }

  // ---------------------------------------------------------------------------
  // Properties of the field and variant rules
  // ---------------------------------------------------------------------------

  /** Every request is found when it is looked up by its own `ty`. */
  lemma RequestFound(derives: seq<ItemInput>, k: nat)
    requires k < |derives|
    ensures RequestIndex(derives, derives[k].path.value.inner).Some?
  {
    RequestIndexMeaning(derives, derives[k].path.value.inner);
  }

  /** Checking a field's own options once per request never reports a missing request. */
  lemma {:induction false} FieldPerRequestFinds(f: FieldReceiver, ds: seq<ItemInput>, derives: seq<ItemInput>)
    requires forall d :: d in ds ==> d in derives
    ensures forall x :: x in FieldPerRequest(f, ds, derives) ==> x.msg != NoDeriveForType
  {
    if |ds| > 0 {
      FieldPerRequestFinds(f, ds[..|ds| - 1], derives);
      var d := ds[|ds| - 1];
      assert d in ds;
      var k :| 0 <= k < |derives| && derives[k] == d;
      RequestFound(derives, k);
    }
  }

  /** A field without any option. */
  predicate PlainField(f: FieldReceiver)
  {
    f.items == [] && f.path.None? && f.rename.None? && f.skip.None? && f.otherTy.None?
    && f.hint == MapperHint(None, None, None, None, None, None)
  }

  lemma {:induction false} PlainPerRequestQuiet(f: FieldReceiver, ds: seq<ItemInput>, derives: seq<ItemInput>)
    requires PlainField(f)
    requires forall d :: d in ds ==> d in derives
    ensures FieldPerRequest(f, ds, derives) == []
  {
    if |ds| > 0 {
      PlainPerRequestQuiet(f, ds[..|ds| - 1], derives);
      var d := ds[|ds| - 1];
      assert d in ds;
      var k :| 0 <= k < |derives| && derives[k] == d;
      RequestFound(derives, k);
    }
  }

  /** A field without any option is accepted under every list of requests. */
  lemma PlainFieldAccepted(f: FieldReceiver, derives: seq<ItemInput>)
    requires PlainField(f)
    ensures FieldDiagnostics(f, derives) == []
  {
    PlainPerRequestQuiet(f, derives, derives);
  }

  /** Once the request for a field's block is found, "Only one of ..." is reported iff two kinds of hint are set. */
  lemma FieldItemHintReport(fi: ItemFieldInput, span: Span, derives: seq<ItemInput>)
    requires RequestIndex(derives, fi.path.value.inner).Some?
    ensures Diagnostic(span, OnlyOneHint) in FieldItemDiagnostics(fi, span, derives) <==> HintsConflict(fi.hint)
  {
    HintCountConflict(fi.hint);
    var k := RequestIndex(derives, fi.path.value.inner).value;
    assert FieldItemDiagnostics(fi, span, derives)
      == FieldSkipDiagnostics(fi.skip, derives[k]) + EmitIf(HintCount(fi.hint) > 1, span, OnlyOneHint);
  }

  /** A clean list of blocks is a clean shorter list followed by a clean last block. */
  lemma FieldItemsCleanSplit(items: seq<ItemFieldInput>, span: Span, derives: seq<ItemInput>)
    requires |items| > 0 && FieldItemsDiagnostics(items, span, derives) == []
    ensures FieldItemsDiagnostics(items[..|items| - 1], span, derives) == []
    ensures FieldItemDiagnostics(items[|items| - 1], span, derives) == []
  {
    var a, b := FieldItemsDiagnostics(items[..|items| - 1], span, derives), FieldItemDiagnostics(items[|items| - 1], span, derives);
    assert |a + b| == 0;
  }

  /** A block that raised nothing names a requested type and sets at most one hint. */
  lemma FieldItemClean(fi: ItemFieldInput, span: Span, derives: seq<ItemInput>)
    requires FieldItemDiagnostics(fi, span, derives) == []
    ensures RequestIndex(derives, fi.path.value.inner).Some? && HintCount(fi.hint) <= 1
  {
  }

  lemma {:induction false} FieldItemsClean(items: seq<ItemFieldInput>, span: Span, derives: seq<ItemInput>)
    requires FieldItemsDiagnostics(items, span, derives) == []
    ensures forall i :: 0 <= i < |items| ==>
      RequestIndex(derives, items[i].path.value.inner).Some? && HintCount(items[i].hint) <= 1
  {
    if |items| > 0 {
      var init := items[..|items| - 1];
      FieldItemsCleanSplit(items, span, derives);
      FieldItemsClean(init, span, derives);
      FieldItemClean(items[|items| - 1], span, derives);
      forall i | 0 <= i < |items|
        ensures RequestIndex(derives, items[i].path.value.inner).Some? && HintCount(items[i].hint) <= 1
      {
        if i < |init| {
          assert init[i] == items[i];
        }
      }
    }
  }

  /**
   * A field with `when` blocks that raised no diagnostic has no option of its own, its
   * blocks name pairwise distinct requested types, and each block sets at most one hint.
   */
  lemma CleanFieldWhen(f: FieldReceiver, derives: seq<ItemInput>)
    requires FieldDiagnostics(f, derives) == [] && f.items != []
    ensures f.path.None? && f.rename.None? && f.skip.None?
    ensures f.hint.withExpr.None? && f.hint.intoWith.None? && f.hint.fromWith.None?
    ensures f.hint.opt.None? && f.hint.iter.None? && f.hint.mapHint.None?
    ensures forall i, j :: 0 <= i < j < |f.items| ==> f.items[i].path.value != f.items[j].path.value
    ensures forall i :: 0 <= i < |f.items| ==>
      RequestIndex(derives, f.items[i].path.value.inner).Some? && HintCount(f.items[i].hint) <= 1
  {
    DuplicateCheckExact(SpannedFieldWhenPaths(f.items));
    SpannedFieldWhenPathsAt(f.items);
    FieldItemsClean(f.items, FieldSpan(f), derives);
  }

  /** A clean list of blocks is a clean shorter list followed by a clean last block. */
  lemma VariantItemsCleanSplit(items: seq<ItemVariantInput>, derives: seq<ItemInput>)
    requires |items| > 0 && VariantItemsDiagnostics(items, derives) == []
    ensures VariantItemsDiagnostics(items[..|items| - 1], derives) == []
    ensures VariantItemDiagnostics(items[|items| - 1], derives) == []
  {
    var a, b := VariantItemsDiagnostics(items[..|items| - 1], derives), VariantItemDiagnostics(items[|items| - 1], derives);
    assert |a + b| == 0;
  }

  /** A block that raised nothing names a requested type. */
  lemma VariantItemFound(vi: ItemVariantInput, derives: seq<ItemInput>)
    requires VariantItemDiagnostics(vi, derives) == []
    ensures RequestIndex(derives, vi.path.value.inner).Some?
  {
  }

  lemma {:induction false} VariantItemsFound(items: seq<ItemVariantInput>, derives: seq<ItemInput>)
    requires VariantItemsDiagnostics(items, derives) == []
    ensures forall i :: 0 <= i < |items| ==> RequestIndex(derives, items[i].path.value.inner).Some?
  {
    if |items| > 0 {
      var init := items[..|items| - 1];
      VariantItemsCleanSplit(items, derives);
      VariantItemsFound(init, derives);
      VariantItemFound(items[|items| - 1], derives);
      forall i | 0 <= i < |items|
        ensures RequestIndex(derives, items[i].path.value.inner).Some?
      {
        if i < |init| {
          assert init[i] == items[i];
        }
      }
    }
  }

  /**
   * A variant with `when` blocks that raised no diagnostic has no option of its own and
   * its blocks name pairwise distinct requested types.
   */
  lemma CleanVariantWhen(v: VariantReceiver, derives: seq<ItemInput>)
    requires VariantDiagnostics(v, derives) == [] && v.items != []
    ensures v.path.None? && v.rename.None? && v.add == [] && v.skip.None? && !v.ignoreExtra.value
    ensures forall i, j :: 0 <= i < j < |v.items| ==> v.items[i].path.value != v.items[j].path.value
    ensures forall i :: 0 <= i < |v.items| ==> RequestIndex(derives, v.items[i].path.value.inner).Some?
  {
    DuplicateCheckExact(SpannedVariantWhenPaths(v.items));
    SpannedVariantWhenPathsAt(v.items);
    VariantItemsFound(v.items, derives);
  }

  /** A skipped variant without a default is reported exactly when the request derives `into` or `try_into`. */
  lemma VariantSkipReport(vi: ItemVariantInput, derives: seq<ItemInput>)
    requires RequestIndex(derives, vi.path.value.inner).Some?
    requires vi.skip.Some? && SkipLacksDefault(vi.skip.value.value)
    ensures Diagnostic(vi.skip.value.span, VariantSkipNeedsDefault) in VariantItemDiagnostics(vi, derives)
      <==> HasInto(derives[RequestIndex(derives, vi.path.value.inner).value])
  {
    var k := RequestIndex(derives, vi.path.value.inner).value;
    AddDiagnosticsSound(vi.add, derives[k]);
  }

  /** A skipped field without a default is reported exactly when `from` or `try_from` lacks `custom`. */
  lemma FieldSkipReport(fi: ItemFieldInput, span: Span, derives: seq<ItemInput>)
    requires RequestIndex(derives, fi.path.value.inner).Some?
    requires fi.skip.Some? && SkipLacksDefault(fi.skip.value.value)
    ensures Diagnostic(fi.skip.value.span, DefaultOrCustomFrom) in FieldItemDiagnostics(fi, span, derives)
      <==> MissingCustomFrom(derives[RequestIndex(derives, fi.path.value.inner).value])
  {
  }

  /** A block whose `ty` names no request is reported, and nothing else is checked for it. */
  lemma UnknownTypeReport(fi: ItemFieldInput, vi: ItemVariantInput, span: Span, derives: seq<ItemInput>)
    ensures RequestIndex(derives, fi.path.value.inner).None? ==>
      FieldItemDiagnostics(fi, span, derives) == [Diagnostic(fi.path.span, NoDeriveForType)]
    ensures RequestIndex(derives, vi.path.value.inner).None? ==>
      VariantItemDiagnostics(vi, derives) == [Diagnostic(vi.path.span, NoDeriveForType)]
    ensures RequestIndex(derives, fi.path.value.inner).Some? ==>
      forall x :: x in FieldItemDiagnostics(fi, span, derives) ==> x.msg != NoDeriveForType
  {
  }
}
