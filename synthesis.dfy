/**
 * The generator's entry point and its per-request dispatch, as the step-by-step procedure
 * the macro runs, each step proved against the expansion it must produce.
 */
module Synthesis {
  import opened Wrappers
  import opened Syntax
  import opened Options
  import opened Diagnostics
  import opened Requests
  import opened ValidationRules
  import opened Validation
  import opened SynthesisPlan
  import opened Directions
  import opened Expansion

  /** One `if ….is_present()` of `derive_struct` and `derive_enum`: emit the `impl` when its option is set. */
  method EmitIfPresent(output: seq<ImplPlan>, present: bool, p: ImplPlan) returns (out: seq<ImplPlan>)
    ensures out == Emit(output, present, p)
  {
    out := output;
    if present {
      out := out + [p];
    }
  }

  /** `derive_struct`: the requested directions of one request, in the fixed order. */
  method DeriveStruct(ident: Ident, derive: ItemInput, fields: seq<FieldReceiver>, h: Helpers) returns (output: seq<ImplPlan>)
    ensures output == RequestImpls(ident, derive, StructData(fields), h)
  {
    StructSteps(ident, derive, fields, h);
    output := EmitIfPresent([], derive.from.Some?, StructFrom(ident, derive, fields, false, h));
    output := EmitIfPresent(output, derive.into.Some?, StructInto(ident, derive, fields, false, h));
    output := EmitIfPresent(output, derive.tryFrom.Some?, StructFrom(ident, derive, fields, true, h));
    output := EmitIfPresent(output, derive.tryInto.Some?, StructInto(ident, derive, fields, true, h));
  }

  /** `derive_enum`: the requested directions of one request, in the fixed order. */
  method DeriveEnum(ident: Ident, derive: ItemInput, vs: seq<VariantReceiver>, h: Helpers) returns (output: seq<ImplPlan>)
    ensures output == RequestImpls(ident, derive, EnumData(vs), h)
  {
    EnumSteps(ident, derive, vs, h);
    output := EmitIfPresent([], derive.from.Some?, EnumFrom(ident, derive, vs, false, h));
    output := EmitIfPresent(output, derive.into.Some?, EnumInto(ident, derive, vs, false, h));
    output := EmitIfPresent(output, derive.tryFrom.Some?, EnumFrom(ident, derive, vs, true, h));
    output := EmitIfPresent(output, derive.tryInto.Some?, EnumInto(ident, derive, vs, true, h));
  }

  /** `ItemInput::validate` on every request. */
  method ValidateItems(derives: seq<ItemInput>, isEnum: bool, diags: seq<Diagnostic>) returns (out: seq<Diagnostic>)
    ensures out == diags + ItemsDiagnostics(derives, isEnum)
  {
    out := diags;
    var k := 0;
    while k < |derives|
      invariant 0 <= k <= |derives|
      invariant out == diags + ItemsDiagnostics(derives[..k], isEnum)
    {
      assert derives[..k + 1][..k] == derives[..k];
      AppendAssoc(diags, ItemsDiagnostics(derives[..k], isEnum), ItemDiagnostics(derives[k], isEnum));
      out := ValidateItem(derives[k], isEnum, out);
      k := k + 1;
    }
    assert derives[..|derives|] == derives;
  }

  /** `VariantReceiver::validate` on every variant of an enum. */
  method ValidateVariants(vs: seq<VariantReceiver>, derives: seq<ItemInput>, diags: seq<Diagnostic>)
    returns (out: seq<Diagnostic>)
    ensures out == diags + VariantsDiagnostics(vs, derives)
  {
    out := diags;
    var k := 0;
    while k < |vs|
      invariant 0 <= k <= |vs|
      invariant out == diags + VariantsDiagnostics(vs[..k], derives)
    {
      assert vs[..k + 1][..k] == vs[..k];
      AppendAssoc(diags, VariantsDiagnostics(vs[..k], derives), VariantDiagnostics(vs[k], derives));
      out := ValidateVariant(vs[k], derives, out);
      k := k + 1;
    }
    assert vs[..|vs|] == vs;
  }

  /** The validation of the annotated type's fields or variants. */
  method ValidateData(data: Data, derives: seq<ItemInput>, diags: seq<Diagnostic>) returns (out: seq<Diagnostic>)
    ensures out == diags + DataDiagnostics(data, derives)
  {
    match data
    case StructData(fields) =>
      out := ValidateFields(fields, derives, diags);
    case EnumData(vs) =>
      out := ValidateVariants(vs, derives, diags);
  }

  /** The validation `r#impl` runs before generating anything. */
  method ValidateAll(opts: MapperOpts, derives: seq<ItemInput>, diags: seq<Diagnostic>) returns (out: seq<Diagnostic>)
    ensures out == diags + CheckDiagnostics(opts, derives)
  {
    out := ValidateItems(derives, opts.data.EnumData?, diags);
    out := ValidateData(opts.data, derives, out);
    AppendAssoc(diags, ItemsDiagnostics(derives, opts.data.EnumData?), DataDiagnostics(opts.data, derives));
  }

  /** The `match &opts.data` of the generation loop: one request, through the struct or the enum generator. */
  method DeriveRequest(ident: Ident, derive: ItemInput, data: Data, h: Helpers) returns (more: seq<ImplPlan>)
    ensures more == RequestImpls(ident, derive, data, h)
  {
    match data
    case StructData(fields) =>
      more := DeriveStruct(ident, derive, fields, h);
    case EnumData(vs) =>
      more := DeriveEnum(ident, derive, vs, h);
  }

  /** The generation loop over the requests, once validation found nothing to report. */
  method GenerateAll(ident: Ident, derives: seq<ItemInput>, data: Data, h: Helpers) returns (output: seq<ImplPlan>)
    ensures output == AllImpls(ident, derives, data, h)
  {
    output := [];
    var k := 0;
    while k < |derives|
      invariant 0 <= k <= |derives|
      invariant output == AllImpls(ident, derives[..k], data, h)
    {
      AllImplsStep(ident, derives, data, h, k);
      var more := DeriveRequest(ident, derives[k], data, h);
      output := output + more;
      k := k + 1;
    }
    assert derives[..|derives|] == derives;
  }

  /** `r#impl`: collect the requests, validate everything, stop on any error, then generate. */
  method Impl(opts: MapperOpts, h: Helpers) returns (r: Expansion)
    ensures r == Expand(opts, h)
  {
    var items, diags := Items(opts, []);
    assert diags == RequestDiagnostics(opts);
    if items.Aborted? {
      return Failed(diags);
    }
    var derives := items.items;
    diags := ValidateAll(opts, derives, diags);
    if diags != [] {
      return Failed(diags);
    }
    var output := GenerateAll(opts.ident, derives, opts.data, h);
    r := Generated(output);
  }
}
