/**
 * The `validate` methods of the parsed options. Each check appends to the run's
 * diagnostics and validation always runs to the end; every method appends exactly what
 * the matching function of `ValidationRules` gives.
 */
module Validation {
  import opened Wrappers
  import opened Syntax
  import opened TypePathExt
  import opened Options
  import opened Diagnostics
  import opened Scoped
  import opened Requests
  import opened ValidationRules

  /** `add.iter().filter(|a| a.default.is_none()).collect()`. */
  method FilterUndefaulted(add: seq<AddInput>) returns (items: seq<AddInput>)
    ensures items == Undefaulted(add)
  {
    items := [];
    var k := 0;
    while k < |add|
      invariant 0 <= k <= |add|
      invariant items == Undefaulted(add[..k])
    {
      assert add[..k + 1][..k] == add[..k];
      if add[k].default.None? {
        items := items + [add[k]];
      }
      k := k + 1;
    }
    assert add[..|add|] == add;
  }

  /** The pass over the additional items without a default. */
  method ReportAddEntries(items: seq<AddInput>, missingCustom: bool, hasInto: bool, diags: seq<Diagnostic>)
    returns (out: seq<Diagnostic>)
    ensures out == diags + AddEntriesDiagnostics(items, missingCustom, hasInto)
  {
    out := diags;
    var j := 0;
    while j < |items|
      invariant 0 <= j <= |items|
      invariant out == diags + AddEntriesDiagnostics(items[..j], missingCustom, hasInto)
    {
      assert items[..j + 1][..j] == items[..j];
      var e := items[j];
      AppendAssoc(diags, AddEntriesDiagnostics(items[..j], missingCustom, hasInto), AddEntryDiagnostics(e, missingCustom, hasInto));
      if missingCustom {
        out := out + [Diagnostic(e.field.span, DefaultOrCustomInto)];
      }
      if e.ty.None? && hasInto {
        out := out + [Diagnostic(e.field.span, ProvideFieldType)];
      }
      j := j + 1;
    }
    assert items[..|items|] == items;
  }

  /** The check on additional items: the filter, the two flags, then one pass over the items. */
  method CheckAdditional(add: seq<AddInput>, d: ItemInput, diags: seq<Diagnostic>) returns (out: seq<Diagnostic>)
    ensures out == diags + AddDiagnostics(add, d)
  {
    var items := FilterUndefaulted(add);
    var hasInto := false;
    var missingCustom := false;
    if d.into.Some? {
      hasInto := true;
      if d.into.value.value.Inherit? || d.into.value.value.value.custom.None? {
        missingCustom := true;
      }
    }
    if d.tryInto.Some? {
      hasInto := true;
      if d.tryInto.value.value.Inherit? || d.tryInto.value.value.value.custom.None? {
        missingCustom := true;
      }
    }
    assert hasInto == HasInto(d) && missingCustom == MissingCustomInto(d);
    if items != [] && (missingCustom || hasInto) {
      out := ReportAddEntries(items, missingCustom, hasInto, diags);
    } else {
      out := diags;
    }
  }

  /** The checks on the additional variants of a request on an enum. */
  method CheckEnumAdditional(add: seq<AddInput>, item: ItemInput, diags: seq<Diagnostic>) returns (out: seq<Diagnostic>)
    ensures out == diags + EnumAddDiagnostics(add, item)
  {
    out := diags;
    var k := 0;
    while k < |add|
      invariant 0 <= k <= |add|
      invariant out == diags + EnumAddDiagnostics(add[..k], item)
    {
      assert add[..k + 1][..k] == add[..k];
      var a := add[k];
      AppendAssoc(diags, EnumAddDiagnostics(add[..k], item), EnumAddEntryDiagnostics(a, item));
      if a.ty.Some? {
        out := out + [Diagnostic(a.ty.value.span, IllegalForEnums)];
      }
      if a.default.None? && (item.from.Some? || item.tryFrom.Some?) {
        out := out + [Diagnostic(a.field.span, MissingEnumDefault)];
      }
      k := k + 1;
    }
    assert add[..|add|] == add;
  }

  method ValidateItem(item: ItemInput, isEnum: bool, diags: seq<Diagnostic>) returns (out: seq<Diagnostic>)
    ensures out == diags + ItemDiagnostics(item, isEnum)
  {
    ghost var first := EmitIf(NoDirection(item), item.path.span, MissingDirection);
    out := diags;
    if item.from.None? && item.into.None? && item.tryFrom.None? && item.tryInto.None? {
      out := out + [Diagnostic(item.path.span, MissingDirection)];
    }
    if !isEnum {
      out := CheckAdditional(item.add, item, out);
      AppendAssoc(diags, first, AddDiagnostics(item.add, item));
    } else {
      out := CheckEnumAdditional(item.add, item, out);
      AppendAssoc(diags, first, EnumAddDiagnostics(item.add, item));
    }
  }

  /** The checks of a variant's block once its request `d` is found: its additional items, then its skip. */
  method CheckFoundVariantItem(vi: ItemVariantInput, d: ItemInput, diags: seq<Diagnostic>) returns (out: seq<Diagnostic>)
    ensures out == diags + AddDiagnostics(vi.add, d) + VariantSkipDiagnostics(vi.skip, d)
  {
    out := CheckAdditional(vi.add, d, diags);
    if vi.skip.Some? && (vi.skip.value.value.Inherit? || vi.skip.value.value.value.default.None?) {
      if d.into.Some? || d.tryInto.Some? {
        out := out + [Diagnostic(vi.skip.value.span, VariantSkipNeedsDefault)];
      }
    }
  }

  method ValidateVariantItem(vi: ItemVariantInput, derives: seq<ItemInput>, diags: seq<Diagnostic>)
    returns (out: seq<Diagnostic>)
    ensures out == diags + VariantItemDiagnostics(vi, derives)
  {
    var found := FindRequest(derives, vi.path.value);
    if found.Some? {
      var d := derives[found.value];
      out := CheckFoundVariantItem(vi, d, diags);
      AppendAssoc(diags, AddDiagnostics(vi.add, d), VariantSkipDiagnostics(vi.skip, d));
    } else {
      out := diags + [Diagnostic(vi.path.span, NoDeriveForType)];
    }
  }

  method ReportVariantMixing(v: VariantReceiver, diags: seq<Diagnostic>) returns (out: seq<Diagnostic>)
    ensures out == diags + VariantMixingOptions(v) + VariantMixingFlags(v)
  {
    var a := IfSet(v.path, IllegalWhenScoped);
    var b := IfSet(v.rename, IllegalWhenScoped);
    out := diags + a;
    out := out + b;
    AppendAssoc(diags, a, b);
    out := ReportAddFields(v.add, IllegalWhenScoped, out);
    AppendAssoc(diags, a + b, AddFieldDiagnostics(v.add, IllegalWhenScoped));
    ghost var before := out;
    var c := IfSet(v.skip, IllegalWhenScoped);
    var e := EmitIf(v.ignoreExtra.value, v.ignoreExtra.span, IllegalWhenScoped);
    out := out + c;
    out := out + e;
    AppendAssoc(before, c, e);
  }

  /** One turn of the loop over the requests: check the variant's own options for request `k`. */
  method ValidateVariantPerRequestStep(v: VariantReceiver, derives: seq<ItemInput>, k: nat, diags: seq<Diagnostic>, done: seq<Diagnostic>)
    returns (out: seq<Diagnostic>)
    requires k < |derives| && done == diags + VariantPerRequest(v, derives[..k], derives)
    ensures out == diags + VariantPerRequest(v, derives[..k + 1], derives)
  {
    assert derives[..k + 1][..k] == derives[..k];
    out := ValidateVariantItem(OwnVariantItem(v, derives[k].path), derives, done);
    AppendAssoc(diags, VariantPerRequest(v, derives[..k], derives), VariantItemDiagnostics(OwnVariantItem(v, derives[k].path), derives));
  }

  /** A variant without `ty`: its own options checked for every request in turn. */
  method ValidateVariantPerRequest(v: VariantReceiver, derives: seq<ItemInput>, diags: seq<Diagnostic>)
    returns (out: seq<Diagnostic>)
    ensures out == diags + VariantPerRequest(v, derives, derives)
  {
    out := diags;
    var k := 0;
    while k < |derives|
      invariant 0 <= k <= |derives|
      invariant out == diags + VariantPerRequest(v, derives[..k], derives)
    {
      out := ValidateVariantPerRequestStep(v, derives, k, diags, out);
      k := k + 1;
    }
    assert derives[..|derives|] == derives;
  }

  method ValidateVariantOwn(v: VariantReceiver, derives: seq<ItemInput>, diags: seq<Diagnostic>)
    returns (out: seq<Diagnostic>)
    ensures out == diags + VariantOwnDiagnostics(v, derives)
  {
    if v.path.Some? {
      out := ValidateVariantItem(OwnVariantItem(v, v.path.value), derives, diags);
    } else {
      out := ValidateVariantPerRequest(v, derives, diags);
    }
  }

  method ValidateVariantWhen(v: VariantReceiver, diags: seq<Diagnostic>) returns (out: seq<Diagnostic>)
    ensures out == diags + VariantWhenChecks(v)
  {
    out := diags;
    if v.items != [] {
      out := ReportVariantMixing(v, out);
      out := CheckDuplicates(SpannedVariantWhenPaths(v.items), out);
      AppendAssoc(diags, VariantMixingOptions(v), VariantMixingFlags(v));
      AppendAssoc(diags, VariantMixingOptions(v) + VariantMixingFlags(v), DuplicateDiagnostics(SpannedVariantWhenPaths(v.items)));
    }
  }

  method ValidateVariantItems(items: seq<ItemVariantInput>, derives: seq<ItemInput>, diags: seq<Diagnostic>)
    returns (out: seq<Diagnostic>)
    ensures out == diags + VariantItemsDiagnostics(items, derives)
  {
    out := diags;
    var k := 0;
    while k < |items|
      invariant 0 <= k <= |items|
      invariant out == diags + VariantItemsDiagnostics(items[..k], derives)
    {
      assert items[..k + 1][..k] == items[..k];
      AppendAssoc(diags, VariantItemsDiagnostics(items[..k], derives), VariantItemDiagnostics(items[k], derives));
      out := ValidateVariantItem(items[k], derives, out);
      k := k + 1;
    }
    assert items[..|items|] == items;
  }

  method ValidateVariant(v: VariantReceiver, derives: seq<ItemInput>, diags: seq<Diagnostic>)
    returns (out: seq<Diagnostic>)
    ensures out == diags + VariantDiagnostics(v, derives)
  {
    ghost var a := VariantWhenChecks(v);
    ghost var b := VariantOwnDiagnostics(v, derives);
    ghost var c := VariantItemsDiagnostics(v.items, derives);
    ghost var e := FieldsDiagnostics(v.fields, derives);
    out := ValidateVariantWhen(v, diags);
    AppendAssoc(diags, a, b);
    out := ValidateVariantOwn(v, derives, out);
    AppendAssoc(diags, a + b, c);
    out := ValidateVariantItems(v.items, derives, out);
    AppendAssoc(diags, a + b + c, e);
    out := ValidateFields(v.fields, derives, out);
  }

  /** The checks of a field's block once its request `d` is found: the skip default, then the hint count. */
  method CheckFoundFieldItem(fi: ItemFieldInput, span: Span, d: ItemInput, diags: seq<Diagnostic>)
    returns (out: seq<Diagnostic>)
    ensures out == diags + FieldSkipDiagnostics(fi.skip, d) + EmitIf(HintCount(fi.hint) > 1, span, OnlyOneHint)
  {
    out := diags;
    if fi.skip.Some? && (fi.skip.value.value.Inherit? || fi.skip.value.value.value.default.None?) {
      var missingCustom := false;
      if d.from.Some? && (d.from.value.value.Inherit? || d.from.value.value.value.custom.None?) {
        missingCustom := true;
      }
      if d.tryFrom.Some? && (d.tryFrom.value.value.Inherit? || d.tryFrom.value.value.value.custom.None?) {
        missingCustom := true;
      }
      if missingCustom {
        out := out + [Diagnostic(fi.skip.value.span, DefaultOrCustomFrom)];
      }
    }
    assert out == diags + FieldSkipDiagnostics(fi.skip, d);
    var hintCount := 0;
    if fi.hint.withExpr.Some? {
      hintCount := hintCount + 1;
    }
    if fi.hint.fromWith.Some? || fi.hint.intoWith.Some? {
      hintCount := hintCount + 1;
    }
    if fi.hint.opt.Some? {
      hintCount := hintCount + 1;
    }
    if fi.hint.iter.Some? {
      hintCount := hintCount + 1;
    }
    if fi.hint.mapHint.Some? {
      hintCount := hintCount + 1;
    }
    assert hintCount == HintCount(fi.hint);
    if hintCount > 1 {
      out := out + [Diagnostic(span, OnlyOneHint)];
    }
  }

  method ValidateFieldItem(fi: ItemFieldInput, span: Span, derives: seq<ItemInput>, diags: seq<Diagnostic>)
    returns (out: seq<Diagnostic>)
    ensures out == diags + FieldItemDiagnostics(fi, span, derives)
  {
    var found := FindRequest(derives, fi.path.value);
    if found.Some? {
      var d := derives[found.value];
      out := CheckFoundFieldItem(fi, span, d, diags);
      AppendAssoc(diags, FieldSkipDiagnostics(fi.skip, d), EmitIf(HintCount(fi.hint) > 1, span, OnlyOneHint));
    } else {
      out := diags + [Diagnostic(fi.path.span, NoDeriveForType)];
    }
  }

  /** Three consecutive checks of the field's own options, each appending its diagnostics. */
  method ReportThree(a: seq<Diagnostic>, b: seq<Diagnostic>, c: seq<Diagnostic>, diags: seq<Diagnostic>) returns (out: seq<Diagnostic>)
    ensures out == diags + (a + b + c)
  {
    out := diags + a;
    out := out + b;
    AppendAssoc(diags, a, b);
    out := out + c;
    AppendAssoc(diags, a + b, c);
  }

  method ReportFieldMixing(f: FieldReceiver, diags: seq<Diagnostic>) returns (out: seq<Diagnostic>)
    ensures out == diags + FieldMixingOptions(f) + FieldMixingWith(f) + FieldMixingShape(f)
  {
    out := ReportThree(IfSet(f.path, IllegalWhenScoped), IfSet(f.rename, IllegalWhenScoped), IfSet(f.skip, IllegalWhenScoped), diags);
    out := ReportThree(IfSet(f.hint.withExpr, IllegalWhenScoped), IfSet(f.hint.intoWith, IllegalWhenScoped),
                       IfSet(f.hint.fromWith, IllegalWhenScoped), out);
    out := ReportThree(IfSet(f.hint.opt, IllegalWhenScoped), IfSet(f.hint.iter, IllegalWhenScoped),
                       IfSet(f.hint.mapHint, IllegalWhenScoped), out);
  }

  /** One turn of the loop over the requests: check the field's own options for request `k`. */
  method ValidateFieldPerRequestStep(f: FieldReceiver, derives: seq<ItemInput>, k: nat, diags: seq<Diagnostic>, done: seq<Diagnostic>)
    returns (out: seq<Diagnostic>)
    requires k < |derives| && done == diags + FieldPerRequest(f, derives[..k], derives)
    ensures out == diags + FieldPerRequest(f, derives[..k + 1], derives)
  {
    var span := if f.ident.Some? then f.identSpan else f.tySpan;
    assert derives[..k + 1][..k] == derives[..k];
    out := ValidateFieldItem(OwnFieldItem(f, derives[k].path), span, derives, done);
    AppendAssoc(diags, FieldPerRequest(f, derives[..k], derives), FieldItemDiagnostics(OwnFieldItem(f, derives[k].path), FieldSpan(f), derives));
  }

  /** A field without `ty`: its own options checked for every request in turn. */
  method ValidateFieldPerRequest(f: FieldReceiver, derives: seq<ItemInput>, diags: seq<Diagnostic>)
    returns (out: seq<Diagnostic>)
    ensures out == diags + FieldPerRequest(f, derives, derives)
  {
    out := diags;
    var k := 0;
    while k < |derives|
      invariant 0 <= k <= |derives|
      invariant out == diags + FieldPerRequest(f, derives[..k], derives)
    {
      out := ValidateFieldPerRequestStep(f, derives, k, diags, out);
      k := k + 1;
    }
    assert derives[..|derives|] == derives;
  }

  method ValidateFieldOwn(f: FieldReceiver, derives: seq<ItemInput>, diags: seq<Diagnostic>)
    returns (out: seq<Diagnostic>)
    ensures out == diags + FieldOwnDiagnostics(f, derives)
  {
    if f.path.Some? {
      var span := if f.ident.Some? then f.identSpan else f.tySpan;
      out := ValidateFieldItem(OwnFieldItem(f, f.path.value), span, derives, diags);
    } else {
      out := ValidateFieldPerRequest(f, derives, diags);
    }
  }

  method ValidateFieldWhen(f: FieldReceiver, diags: seq<Diagnostic>) returns (out: seq<Diagnostic>)
    ensures out == diags + FieldWhenChecks(f)
  {
    out := diags;
    if f.items != [] {
      out := ReportFieldMixing(f, out);
      out := CheckDuplicates(SpannedFieldWhenPaths(f.items), out);
      var a, b, c := FieldMixingOptions(f), FieldMixingWith(f), FieldMixingShape(f);
      AppendAssoc(diags, a, b);
      AppendAssoc(diags, a + b, c);
      AppendAssoc(diags, a + b + c, DuplicateDiagnostics(SpannedFieldWhenPaths(f.items)));
    }
  }

  method ValidateFieldItems(items: seq<ItemFieldInput>, span: Span, derives: seq<ItemInput>, diags: seq<Diagnostic>)
    returns (out: seq<Diagnostic>)
    ensures out == diags + FieldItemsDiagnostics(items, span, derives)
  {
    out := diags;
    var k := 0;
    while k < |items|
      invariant 0 <= k <= |items|
      invariant out == diags + FieldItemsDiagnostics(items[..k], span, derives)
    {
      assert items[..k + 1][..k] == items[..k];
      AppendAssoc(diags, FieldItemsDiagnostics(items[..k], span, derives), FieldItemDiagnostics(items[k], span, derives));
      out := ValidateFieldItem(items[k], span, derives, out);
      k := k + 1;
    }
    assert items[..|items|] == items;
  }

  method ValidateField(f: FieldReceiver, derives: seq<ItemInput>, diags: seq<Diagnostic>)
    returns (out: seq<Diagnostic>)
    ensures out == diags + FieldDiagnostics(f, derives)
  {
    ghost var a := FieldWhenChecks(f);
    ghost var b := FieldOwnDiagnostics(f, derives);
    var span := if f.ident.Some? then f.identSpan else f.tySpan;
    ghost var c := FieldItemsDiagnostics(f.items, span, derives);
    out := ValidateFieldWhen(f, diags);
    AppendAssoc(diags, a, b);
    out := ValidateFieldOwn(f, derives, out);
    AppendAssoc(diags, a + b, c);
    out := ValidateFieldItems(f.items, span, derives, out);
  }

  /** One turn of the loop over the fields: validate field `k` after the fields before it. */
  method ValidateFieldsStep(fs: seq<FieldReceiver>, k: nat, derives: seq<ItemInput>, diags: seq<Diagnostic>, done: seq<Diagnostic>)
    returns (out: seq<Diagnostic>)
    requires k < |fs| && done == diags + FieldsUpTo(fs, k, derives)
    ensures out == diags + FieldsUpTo(fs, k + 1, derives)
  {
    out := ValidateField(fs[k], derives, done);
    AppendAssoc(diags, FieldsUpTo(fs, k, derives), FieldDiagnostics(fs[k], derives));
  }

  method ValidateFields(fs: seq<FieldReceiver>, derives: seq<ItemInput>, diags: seq<Diagnostic>)
    returns (out: seq<Diagnostic>)
    ensures out == diags + FieldsDiagnostics(fs, derives)
  {
    out := diags;
    var k := 0;
    while k < |fs|
      invariant 0 <= k <= |fs|
      invariant out == diags + FieldsUpTo(fs, k, derives)
    {
      out := ValidateFieldsStep(fs, k, derives, diags, out);
      k := k + 1;
    }
  }
}
