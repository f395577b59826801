/**
 * The macro as a whole (`r#impl`, `derive_struct`, `derive_enum`): collect the conversion
 * requests, validate every option, stop if anything was reported, and otherwise generate
 * the requested `impl`s, request by request, in a fixed order of directions.
 */
module Expansion {
  import opened Wrappers
  import opened Syntax
  import opened Options
  import opened Diagnostics
  import opened Requests
  import opened ValidationRules
  import opened SynthesisPlan
  import opened Directions

  /** One generated `impl`: `from` directions build the annotated type, `into` ones the other type. */
  function Derive(ident: Ident, derive: ItemInput, data: Data, h: Helpers, d: Direction): ImplPlan
  {
    var forward := d == FromDir || d == TryFromDir;
    match data
    case StructData(fields) =>
      if forward then StructFrom(ident, derive, fields, IsTry(d), h) else StructInto(ident, derive, fields, IsTry(d), h)
    case EnumData(vs) =>
      if forward then EnumFrom(ident, derive, vs, IsTry(d), h) else EnumInto(ident, derive, vs, IsTry(d), h)
  }

  /** The header of every generated `impl`: which trait, between which types, and how the body is returned. */
  lemma DeriveHeader(ident: Ident, derive: ItemInput, data: Data, h: Helpers, d: Direction)
    ensures var p := Derive(ident, derive, data, h, d);
      var other := OtherType(derive.path.value.inner);
      (p.kind == if IsTry(d) then TryFromTrait(AnyhowError) else FromTrait)
      && (p.okWrapped <==> IsTry(d))
      && ((d == FromDir || d == TryFromDir) ==> p.source == other && p.target == SelfType(ident))
      && ((d == IntoDir || d == TryIntoDir) ==> p.source == SelfType(ident) && p.target == other)
      && (p.body.Construct? <==> data.StructData?)
  {
  }

  function Deriver(ident: Ident, derive: ItemInput, data: Data, h: Helpers): Direction -> ImplPlan
  {
    d => Derive(ident, derive, data, h, d)
  }

  /** What one request produces. */
  function RequestImpls(ident: Ident, derive: ItemInput, data: Data, h: Helpers): seq<ImplPlan>
  {
    Steps(derive, Deriver(ident, derive, data, h))
  }

  /** For a struct, the request's `impl`s are `derive_struct_from` and `derive_struct_into`, untried then tried. */
  lemma StructSteps(ident: Ident, derive: ItemInput, fields: seq<FieldReceiver>, h: Helpers)
    ensures RequestImpls(ident, derive, StructData(fields), h) ==
      Emit(Emit(Emit(Emit([], derive.from.Some?, StructFrom(ident, derive, fields, false, h)),
                     derive.into.Some?, StructInto(ident, derive, fields, false, h)),
                derive.tryFrom.Some?, StructFrom(ident, derive, fields, true, h)),
           derive.tryInto.Some?, StructInto(ident, derive, fields, true, h))
  {
    var g := Deriver(ident, derive, StructData(fields), h);
    assert g(FromDir) == StructFrom(ident, derive, fields, false, h);
    assert g(IntoDir) == StructInto(ident, derive, fields, false, h);
    assert g(TryFromDir) == StructFrom(ident, derive, fields, true, h);
    assert g(TryIntoDir) == StructInto(ident, derive, fields, true, h);
  }

  /** For an enum, the request's `impl`s are `derive_enum_from` and `derive_enum_into`, untried then tried. */
  lemma EnumSteps(ident: Ident, derive: ItemInput, vs: seq<VariantReceiver>, h: Helpers)
    ensures RequestImpls(ident, derive, EnumData(vs), h) ==
      Emit(Emit(Emit(Emit([], derive.from.Some?, EnumFrom(ident, derive, vs, false, h)),
                     derive.into.Some?, EnumInto(ident, derive, vs, false, h)),
                derive.tryFrom.Some?, EnumFrom(ident, derive, vs, true, h)),
           derive.tryInto.Some?, EnumInto(ident, derive, vs, true, h))
  {
    var g := Deriver(ident, derive, EnumData(vs), h);
    assert g(FromDir) == EnumFrom(ident, derive, vs, false, h);
    assert g(IntoDir) == EnumInto(ident, derive, vs, false, h);
    assert g(TryFromDir) == EnumFrom(ident, derive, vs, true, h);
    assert g(TryIntoDir) == EnumInto(ident, derive, vs, true, h);
  }

  /** What all the requests produce, request after request. */
  function AllImpls(ident: Ident, derives: seq<ItemInput>, data: Data, h: Helpers): seq<ImplPlan>
  {
    if |derives| == 0 then []
    else AllImpls(ident, derives[..|derives| - 1], data, h) + RequestImpls(ident, derives[|derives| - 1], data, h)
  }

  /** The generation loop's step: one more request appends its `impl`s. */
  lemma AllImplsStep(ident: Ident, derives: seq<ItemInput>, data: Data, h: Helpers, k: nat)
    requires k < |derives|
    ensures AllImpls(ident, derives[..k + 1], data, h) == AllImpls(ident, derives[..k], data, h) + RequestImpls(ident, derives[k], data, h)
  {
    assert derives[..k + 1][..k] == derives[..k];
  }

  /** `ItemInput::validate` for every request, in order. */
  function ItemsDiagnostics(derives: seq<ItemInput>, isEnum: bool): seq<Diagnostic>
  {
    if |derives| == 0 then []
    else ItemsDiagnostics(derives[..|derives| - 1], isEnum) + ItemDiagnostics(derives[|derives| - 1], isEnum)
  }

  /** The validation of the fields of a struct or of the variants of an enum. */
  function DataDiagnostics(data: Data, derives: seq<ItemInput>): seq<Diagnostic>
  {
    match data
    case StructData(fields) => FieldsDiagnostics(fields, derives)
    case EnumData(vs) => VariantsDiagnostics(vs, derives)
  }

  function CheckDiagnostics(opts: MapperOpts, derives: seq<ItemInput>): seq<Diagnostic>
  {
    ItemsDiagnostics(derives, opts.data.EnumData?) + DataDiagnostics(opts.data, derives)
  }

  /** The macro's result: the generated `impl`s, or the errors it reports instead. */
  datatype Expansion = Generated(impls: seq<ImplPlan>) | Failed(diags: seq<Diagnostic>)

  function Expand(opts: MapperOpts, h: Helpers): Expansion
  {
    match RequestsOf(opts)
    case Aborted => Failed(RequestDiagnostics(opts))
    case Requests(derives) =>
      var diags := RequestDiagnostics(opts) + CheckDiagnostics(opts, derives);
      if diags == [] then Generated(AllImpls(opts.ident, derives, opts.data, h)) else Failed(diags)
  }

  // ---------------------------------------------------------------------------
  // Properties
  // ---------------------------------------------------------------------------

  /** The macro never fails silently: a failed expansion reports at least one error. */
  lemma FailureIsReported(opts: MapperOpts, h: Helpers)
    ensures Expand(opts, h).Failed? ==> Expand(opts, h).diags != []
    ensures Expand(opts, h).Generated? <==>
      (RequestsOf(opts).Requests? && RequestDiagnostics(opts) == [] && CheckDiagnostics(opts, RequestsOf(opts).items) == [])
  {
  }

  /** A clean list of request validations means every request asks for at least one direction. */
  lemma {:induction false} CleanItemsHaveDirections(derives: seq<ItemInput>, isEnum: bool, k: nat)
    requires ItemsDiagnostics(derives, isEnum) == [] && k < |derives|
    ensures !NoDirection(derives[k])
  {
    var n := |derives| - 1;
    assert ItemsDiagnostics(derives, isEnum) == ItemsDiagnostics(derives[..n], isEnum) + ItemDiagnostics(derives[n], isEnum);
    if k < n {
      assert derives[..n][k] == derives[k];
      CleanItemsHaveDirections(derives[..n], isEnum, k);
    } else {
      MissingDirectionReport(derives[n], isEnum);
    }
  }

  /** When every request asks for a direction, each contributes at least one `impl`. */
  lemma {:induction false} AllImplsCount(ident: Ident, derives: seq<ItemInput>, data: Data, h: Helpers)
    requires forall k :: 0 <= k < |derives| ==> !NoDirection(derives[k])
    ensures |AllImpls(ident, derives, data, h)| >= |derives|
  {
    if |derives| > 0 {
      var n := |derives| - 1;
      StepsNonEmpty(derives[n], Deriver(ident, derives[n], data, h));
      forall k | 0 <= k < n
        ensures !NoDirection(derives[..n][k])
      {
        assert derives[..n][k] == derives[k];
      }
      AllImplsCount(ident, derives[..n], data, h);
    }
  }

  /** The `impl` converts between the annotated type and `ty`, in one direction or the other. */
  predicate Connects(p: ImplPlan, ident: Ident, ty: TypePath)
  {
    (p.source == OtherType(ty) && p.target == SelfType(ident)) || (p.source == SelfType(ident) && p.target == OtherType(ty))
  }

  /** Every generated `impl` converts between the annotated type and one of the requested types. */
  lemma {:induction false} AllImplsBetween(ident: Ident, derives: seq<ItemInput>, data: Data, h: Helpers, p: ImplPlan)
    returns (k: nat)
    requires p in AllImpls(ident, derives, data, h)
    ensures k < |derives| && Connects(p, ident, derives[k].path.value.inner)
  {
    var n := |derives| - 1;
    if p in AllImpls(ident, derives[..n], data, h) {
      k := AllImplsBetween(ident, derives[..n], data, h, p);
      assert derives[..n][k] == derives[k];
    } else {
      var d := StepsMember(derives[n], Deriver(ident, derives[n], data, h), p);
      DeriveHeader(ident, derives[n], data, h, d);
      k := n;
    }
  }

  /** Every fallible `impl` is `TryFrom` with the `anyhow` error and returns its value inside `Ok`. */
  lemma {:induction false} FallibleImplsWrapOk(ident: Ident, derives: seq<ItemInput>, data: Data, h: Helpers, p: ImplPlan)
    requires p in AllImpls(ident, derives, data, h)
    ensures p.okWrapped <==> p.kind.TryFromTrait?
    ensures p.kind.TryFromTrait? ==> p.kind.error == AnyhowError
  {
    var n := |derives| - 1;
    if p in AllImpls(ident, derives[..n], data, h) {
      FallibleImplsWrapOk(ident, derives[..n], data, h, p);
    } else {
      var d := StepsMember(derives[n], Deriver(ident, derives[n], data, h), p);
      DeriveHeader(ident, derives[n], data, h, d);
    }
  }

  /**
   * A successful expansion comes from distinct requests that each ask for a conversion, so it
   * holds at least one `impl` per request, and each converts to or from a requested type.
   */
  lemma GeneratedCoversRequests(opts: MapperOpts, h: Helpers)
    requires Expand(opts, h).Generated?
    ensures RequestsOf(opts).Requests?
    ensures Distinct(SpannedRequestPaths(RequestsOf(opts).items))
    ensures |Expand(opts, h).impls| >= |RequestsOf(opts).items| >= 1
    ensures forall p :: p in Expand(opts, h).impls ==>
      exists k :: 0 <= k < |RequestsOf(opts).items| && Connects(p, opts.ident, RequestsOf(opts).items[k].path.value.inner)
  {
    var derives := RequestsOf(opts).items;
    CleanRequestsDistinct(opts);
    forall k | 0 <= k < |derives|
      ensures !NoDirection(derives[k])
    {
      CleanItemsHaveDirections(derives, opts.data.EnumData?, k);
    }
    AllImplsCount(opts.ident, derives, opts.data, h);
    forall p | p in Expand(opts, h).impls
      ensures exists k :: 0 <= k < |derives| && Connects(p, opts.ident, derives[k].path.value.inner)
    {
      var k := AllImplsBetween(opts.ident, derives, opts.data, h, p);
    }
  }
}
