/**
 * What `derive_struct_from`, `derive_struct_into`, `derive_enum_from` and
 * `derive_enum_into` generate for one request and one direction, as a plan: which fields
 * are deconstructed and under which names, how each value is converted, which ones are
 * defaulted, and which variants get a mapped or a catch-all arm.
 */
module SynthesisPlan {
  import opened Wrappers
  import opened Syntax
  import opened TypePathExt
  import opened Options
  import opened Scoped
  import opened Diagnostics
  import opened Requests
  import opened ValidationRules

  /**
   * Helpers the generator calls that the option records do not define: the conversion
   * function of a field for a type (`with_for`, `try_with_for`), the ignored fields of a
   * variant (`ignore_for`) and the request's own ignored fields or variants (`ignore`).
   */
  datatype Helpers = Helpers(
    withFor: (FieldReceiver, TypePath) -> Option<Expr>,
    tryWithFor: (FieldReceiver, TypePath) -> Option<Expr>,
    ignoreFor: (VariantReceiver, TypePath) -> Option<seq<Ident>>,
    requestIgnore: ItemInput -> seq<Ident>)

  /** `is_skip_for`: the field or variant has a `skip` option for this type. */
  predicate FieldSkipped(f: FieldReceiver, ty: TypePath)
  {
    FieldSkipFor(f, ty).Some?
  }

  predicate VariantSkipped(v: VariantReceiver, ty: TypePath)
  {
    VariantSkipFor(v, ty).Some?
  }

  /** A field's name in a pattern or a constructor: its identifier, or its position in a tuple. */
  datatype FieldName = Named(name: Ident) | Positional(index: nat)

  /** `as_ident(ix)`. */
  function AsIdent(f: FieldReceiver, ix: nat): FieldName
  {
    if f.ident.Some? then Named(f.ident.value) else Positional(ix)
  }

  /** The field's name on the other type: its `rename` for that type, if any. */
  function OtherName(f: FieldReceiver, ix: nat, ty: TypePath): (n: FieldName)
    ensures FieldRenameFor(f, ty).Some? ==> n == Named(FieldRenameFor(f, ty).value)
    ensures FieldRenameFor(f, ty).None? ==> n == AsIdent(f, ix)
  {
    match FieldRenameFor(f, ty)
    case Some(r) => Named(r)
    case None => AsIdent(f, ix)
  }

  /** The conversion applied to one field's value; the two fallible ones end in `?`. */
  datatype FieldConv =
    | WithCall(func: Expr, arg: FieldName)
    | TryWithCall(func: Expr, arg: FieldName)
    | IntoCall(arg: FieldName)
    | TryIntoCall(arg: FieldName)

  predicate Fallible(c: FieldConv)
  {
    c.TryWithCall? || c.TryIntoCall?
  }

  /** The per-field value expression: the custom function for the type if any, else the trait. */
  function FieldValue(f: FieldReceiver, ix: nat, ty: TypePath, isTry: bool, h: Helpers): (c: FieldConv)
    ensures Fallible(c) <==> isTry
    ensures c.arg == AsIdent(f, ix)
    ensures isTry && h.tryWithFor(f, ty).Some? ==> c == TryWithCall(h.tryWithFor(f, ty).value, AsIdent(f, ix))
    ensures !isTry && h.withFor(f, ty).Some? ==> c == WithCall(h.withFor(f, ty).value, AsIdent(f, ix))
    ensures (if isTry then h.tryWithFor(f, ty) else h.withFor(f, ty)).None? ==> c.IntoCall? || c.TryIntoCall?
  {
    if isTry then
      match h.tryWithFor(f, ty)
      case Some(func) => TryWithCall(func, AsIdent(f, ix))
      case None => TryIntoCall(AsIdent(f, ix))
    else
      match h.withFor(f, ty)
      case Some(func) => WithCall(func, AsIdent(f, ix))
      case None => IntoCall(AsIdent(f, ix))
  }

  datatype Value = Converted(conv: FieldConv) | DefaultValue

  /** `field: local` in a deconstruction pattern. */
  datatype Binding = Binding(field: FieldName, local: FieldName)

  /** `field: value` in a constructor. */
  datatype Entry = Entry(field: FieldName, value: Value)

  /** A deconstruction pattern; `ignored` names the fields matched by the rest pattern. */
  datatype Pattern = Pattern(binds: seq<Binding>, ignored: seq<Ident>)

  datatype TypeRef = SelfType(ident: Ident) | OtherType(path: TypePath)

  datatype Arm =
    | MappedArm(source: TypeRef, variant: Ident, pattern: Pattern, target: TypeRef, targetVariant: Ident, entries: seq<Entry>)
    | DefaultArm(source: TypeRef, variant: Ident)   // `source::variant { .. } => Default::default()`

  datatype Body = Construct(pattern: Pattern, entries: seq<Entry>) | Match(arms: seq<Arm>)

  const AnyhowError: string := "::anyhow::Error"

  /** `From`, or `TryFrom` with its error type. */
  datatype TraitKind = FromTrait | TryFromTrait(error: string)

  /** One generated `impl`; `okWrapped` says the body's value is returned inside `Ok(...)`. */
  datatype ImplPlan = ImplPlan(kind: TraitKind, source: TypeRef, target: TypeRef, okWrapped: bool, body: Body)

  function Kind(isTry: bool): TraitKind
  {
    if isTry then TryFromTrait(AnyhowError) else FromTrait
  }

  // ---------------------------------------------------------------------------
  // The effects of the fields helper: filter the skipped fields, bind, convert, default
  // ---------------------------------------------------------------------------

  /** One field as the generator sees it for a given type: resolved once, then collected. */
  datatype FieldPlan = FieldPlan(skipped: bool, ident: Option<Ident>, local: FieldName, other: FieldName, conv: FieldConv)

  function PlanField(f: FieldReceiver, ix: nat, ty: TypePath, isTry: bool, h: Helpers): FieldPlan
  {
    FieldPlan(FieldSkipped(f, ty), f.ident, AsIdent(f, ix), OtherName(f, ix, ty), FieldValue(f, ix, ty, isTry, h))
  }

  /** The plan of every field, each at its position in the declaration. */
  function PlanFields(fields: seq<FieldReceiver>, ty: TypePath, isTry: bool, h: Helpers): seq<FieldPlan>
  {
    seq(|fields|, i requires 0 <= i < |fields| => PlanField(fields[i], i, ty, isTry, h))
  }

  /** `field: local`; with `renamed`, the field's name is the one on the other type. */
  function BindingOf(p: FieldPlan, renamed: bool): Binding
  {
    Binding(if renamed then p.other else p.local, p.local)
  }

  /** `field: conversion(local)`; with `renamed`, the field's name is the one on the other type. */
  function EntryOf(p: FieldPlan, renamed: bool): Entry
  {
    Entry(if renamed then p.other else p.local, Converted(p.conv))
  }

  /** The bindings of the first `n` fields that are not skipped, in field order. */
  function Binds(ps: seq<FieldPlan>, n: nat, renamed: bool): seq<Binding>
    requires n <= |ps|
  {
    if n == 0 then []
    else
      Binds(ps, n - 1, renamed) + (if ps[n - 1].skipped then [] else [BindingOf(ps[n - 1], renamed)])
  }

  /** The converted values of the first `n` fields that are not skipped, in field order. */
  function ConvertedEntries(ps: seq<FieldPlan>, n: nat, renamed: bool): seq<Entry>
    requires n <= |ps|
  {
    if n == 0 then []
    else
      ConvertedEntries(ps, n - 1, renamed) + (if ps[n - 1].skipped then [] else [EntryOf(ps[n - 1], renamed)])
  }

  /** The identifiers of the first `n` fields that are skipped and have a name. */
  function SkippedNames(ps: seq<FieldPlan>, n: nat): seq<Ident>
    requires n <= |ps|
  {
    if n == 0 then []
    else
      SkippedNames(ps, n - 1) + (if ps[n - 1].skipped && ps[n - 1].ident.Some? then [ps[n - 1].ident.value] else [])
  }

  /** Every field that is not skipped is bound. */
  lemma {:induction false} BindsComplete(ps: seq<FieldPlan>, n: nat, renamed: bool, i: nat)
    requires i < n <= |ps| && !ps[i].skipped
    ensures BindingOf(ps[i], renamed) in Binds(ps, n, renamed)
  {
    var prev := Binds(ps, n - 1, renamed);
    var last := if ps[n - 1].skipped then [] else [BindingOf(ps[n - 1], renamed)];
    assert Binds(ps, n, renamed) == prev + last;
    if i < n - 1 {
      BindsComplete(ps, n - 1, renamed, i);
      assert BindingOf(ps[i], renamed) in prev;
    } else {
      assert BindingOf(ps[i], renamed) in last;
    }
  }

  /** Every binding belongs to a field that is not skipped. */
  lemma {:induction false} BindsSound(ps: seq<FieldPlan>, n: nat, renamed: bool, b: Binding) returns (i: nat)
    requires n <= |ps| && b in Binds(ps, n, renamed)
    ensures i < n && !ps[i].skipped && b == BindingOf(ps[i], renamed)
  {
    if b in Binds(ps, n - 1, renamed) {
      i := BindsSound(ps, n - 1, renamed, b);
    } else {
      i := n - 1;
    }
  }

  /** Every field that is not skipped is converted. */
  lemma {:induction false} ConvertedComplete(ps: seq<FieldPlan>, n: nat, renamed: bool, i: nat)
    requires i < n <= |ps| && !ps[i].skipped
    ensures EntryOf(ps[i], renamed) in ConvertedEntries(ps, n, renamed)
  {
    var prev := ConvertedEntries(ps, n - 1, renamed);
    var last := if ps[n - 1].skipped then [] else [EntryOf(ps[n - 1], renamed)];
    assert ConvertedEntries(ps, n, renamed) == prev + last;
    if i < n - 1 {
      ConvertedComplete(ps, n - 1, renamed, i);
      assert EntryOf(ps[i], renamed) in prev;
    } else {
      assert EntryOf(ps[i], renamed) in last;
    }
  }

  /** Every converted value belongs to a field that is not skipped. */
  lemma {:induction false} ConvertedSound(ps: seq<FieldPlan>, n: nat, renamed: bool, e: Entry) returns (i: nat)
    requires n <= |ps| && e in ConvertedEntries(ps, n, renamed)
    ensures i < n && !ps[i].skipped && e == EntryOf(ps[i], renamed)
  {
    if e in ConvertedEntries(ps, n - 1, renamed) {
      i := ConvertedSound(ps, n - 1, renamed, e);
    } else {
      i := n - 1;
    }
  }

  /** Every skipped named field is listed. */
  lemma {:induction false} SkippedNamesComplete(ps: seq<FieldPlan>, n: nat, i: nat)
    requires i < n <= |ps| && ps[i].skipped && ps[i].ident.Some?
    ensures ps[i].ident.value in SkippedNames(ps, n)
  {
    var prev := SkippedNames(ps, n - 1);
    var last := if ps[n - 1].skipped && ps[n - 1].ident.Some? then [ps[n - 1].ident.value] else [];
    assert SkippedNames(ps, n) == prev + last;
    if i < n - 1 {
      SkippedNamesComplete(ps, n - 1, i);
      assert ps[i].ident.value in prev;
    } else {
      assert ps[i].ident.value in last;
    }
  }

  /** Every listed name is that of a skipped field. */
  lemma {:induction false} SkippedNamesSound(ps: seq<FieldPlan>, n: nat, x: Ident) returns (i: nat)
    requires n <= |ps| && x in SkippedNames(ps, n)
    ensures i < n && ps[i].skipped && ps[i].ident == Some(x)
  {
    if x in SkippedNames(ps, n - 1) {
      i := SkippedNamesSound(ps, n - 1, x);
    } else {
      i := n - 1;
    }
  }

  /** `include_default`: one `name: Default::default()` entry per name. */
  function DefaultEntries(names: seq<Ident>): (r: seq<Entry>)
    ensures |r| == |names|
    ensures forall i :: 0 <= i < |names| ==> r[i] == Entry(Named(names[i]), DefaultValue)
  {
    if |names| == 0 then [] else DefaultEntries(names[..|names| - 1]) + [Entry(Named(names[|names| - 1]), DefaultValue)]
  }

  // ---------------------------------------------------------------------------
  // Structs
  // ---------------------------------------------------------------------------

  /** `derive_struct_from`: `From<Other>` (or `TryFrom`) for the annotated struct. */
  function StructFrom(ident: Ident, derive: ItemInput, fields: seq<FieldReceiver>, isTry: bool, h: Helpers): ImplPlan
  {
    var ty := derive.path.value.inner;
    var ps := PlanFields(fields, ty, isTry, h);
    ImplPlan(Kind(isTry), OtherType(ty), SelfType(ident), isTry,
      Construct(Pattern(Binds(ps, |ps|, true), h.requestIgnore(derive)),
                ConvertedEntries(ps, |ps|, false) + DefaultEntries(SkippedNames(ps, |ps|))))
  }

  /** `derive_struct_into`: `From<Self>` (or `TryFrom`) for the other type. */
  function StructInto(ident: Ident, derive: ItemInput, fields: seq<FieldReceiver>, isTry: bool, h: Helpers): ImplPlan
  {
    var ty := derive.path.value.inner;
    var ps := PlanFields(fields, ty, isTry, h);
    ImplPlan(Kind(isTry), SelfType(ident), OtherType(ty), isTry,
      Construct(Pattern(Binds(ps, |ps|, false), SkippedNames(ps, |ps|)),
                ConvertedEntries(ps, |ps|, true) + DefaultEntries(h.requestIgnore(derive))))
  }

  /** Fields with pairwise distinct names (tuple fields have none). */
  predicate DistinctFieldNames(fields: seq<FieldReceiver>)
  {
    forall i, j :: 0 <= i < |fields| && 0 <= j < |fields| && i != j && fields[i].ident.Some? ==> fields[i].ident != fields[j].ident
  }

  /**
   * Converted values and defaults of a field list: a named field is defaulted exactly when it
   * is skipped, and converted under its own name exactly when it is not.
   */
  lemma CoverageOf(ps: seq<FieldPlan>, i: nat)
    requires i < |ps| && ps[i].ident.Some? && ps[i].local == Named(ps[i].ident.value)
    requires forall j :: 0 <= j < |ps| && j != i ==> ps[j].ident != ps[i].ident
    requires forall j :: 0 <= j < |ps| && ps[j].local.Named? ==> ps[j].ident == Some(ps[j].local.name)
    ensures var entries := ConvertedEntries(ps, |ps|, false) + DefaultEntries(SkippedNames(ps, |ps|));
      (ps[i].skipped <==> Entry(Named(ps[i].ident.value), DefaultValue) in entries)
      && (!ps[i].skipped <==> EntryOf(ps[i], false) in entries)
  {
    var conv := ConvertedEntries(ps, |ps|, false);
    var names := SkippedNames(ps, |ps|);
    var defaults := DefaultEntries(names);
    var d := Entry(Named(ps[i].ident.value), DefaultValue);
    assert d !in conv by {
      if d in conv {
        var j := ConvertedSound(ps, |ps|, false, d);
      }
    }
    if d in defaults {
      var k :| 0 <= k < |defaults| && defaults[k] == d;
      assert names[k] in names;
      var j := SkippedNamesSound(ps, |ps|, names[k]);
    }
    if ps[i].skipped {
      SkippedNamesComplete(ps, |ps|, i);
      var k :| 0 <= k < |names| && names[k] == ps[i].ident.value;
      assert defaults[k] == d;
    } else {
      ConvertedComplete(ps, |ps|, false, i);
    }
    var e := EntryOf(ps[i], false);
    assert e !in defaults;
    if e in conv {
      var j := ConvertedSound(ps, |ps|, false, e);
    }
  }

  /**
   * In the `From` direction every named field of the struct is either converted from the
   * other value or defaulted, and it is defaulted exactly when it is skipped for that type.
   */
  lemma StructFromCoverage(ident: Ident, derive: ItemInput, fields: seq<FieldReceiver>, isTry: bool, h: Helpers, i: nat)
    requires i < |fields| && fields[i].ident.Some? && DistinctFieldNames(fields)
    ensures var entries := StructFrom(ident, derive, fields, isTry, h).body.entries;
      var ty := derive.path.value.inner;
      (FieldSkipped(fields[i], ty) <==> Entry(Named(fields[i].ident.value), DefaultValue) in entries)
      && (!FieldSkipped(fields[i], ty) <==> Entry(Named(fields[i].ident.value), Converted(FieldValue(fields[i], i, ty, isTry, h))) in entries)
  {
    var ty := derive.path.value.inner;
    var ps := PlanFields(fields, ty, isTry, h);
    assert ps[i] == PlanField(fields[i], i, ty, isTry, h);
    forall j | 0 <= j < |ps| && j != i
      ensures ps[j].ident != ps[i].ident
    {
      assert ps[j] == PlanField(fields[j], j, ty, isTry, h);
    }
    forall j | 0 <= j < |ps| && ps[j].local.Named?
      ensures ps[j].ident == Some(ps[j].local.name)
    {
      assert ps[j] == PlanField(fields[j], j, ty, isTry, h);
    }
    CoverageOf(ps, i);
  }

  /**
   * In the `From` direction the other value is deconstructed into exactly the fields that
   * are not skipped, each read from its renamed field and bound to the struct's own name;
   * the request's ignored fields are matched by the rest pattern.
   */
  lemma StructFromBinds(ident: Ident, derive: ItemInput, fields: seq<FieldReceiver>, isTry: bool, h: Helpers, i: nat)
    requires i < |fields| && DistinctFieldNames(fields)
    ensures var pattern := StructFrom(ident, derive, fields, isTry, h).body.pattern;
      var ty := derive.path.value.inner;
      (!FieldSkipped(fields[i], ty) <==> Binding(OtherName(fields[i], i, ty), AsIdent(fields[i], i)) in pattern.binds)
      && pattern.ignored == h.requestIgnore(derive)
  {
    var ty := derive.path.value.inner;
    var ps := PlanFields(fields, ty, isTry, h);
    assert ps[i] == PlanField(fields[i], i, ty, isTry, h);
    var b := Binding(OtherName(fields[i], i, ty), AsIdent(fields[i], i));
    if !ps[i].skipped {
      BindsComplete(ps, |ps|, true, i);
    }
    if b in Binds(ps, |ps|, true) {
      var j := BindsSound(ps, |ps|, true, b);
      assert ps[j] == PlanField(fields[j], j, ty, isTry, h);
      if j != i {
        LocalsDistinct(fields, ty, isTry, h, i, j);
      }
    }
  }

  /** Field names are told apart: two fields never bind the same local name. */
  lemma {:induction false} LocalsDistinct(fields: seq<FieldReceiver>, ty: TypePath, isTry: bool, h: Helpers, i: nat, j: nat)
    requires i < |fields| && j < |fields| && i != j && DistinctFieldNames(fields)
    ensures AsIdent(fields[i], i) != AsIdent(fields[j], j)
  {
    if fields[j].ident.Some? {
      assert fields[j].ident != fields[i].ident;
    }
  }

  /**
   * In the `into` direction the other value is built from exactly the fields that are not
   * skipped for that type, each under its renamed name; the skipped named fields are the
   * ones matched by the rest pattern, and the request's ignored fields are defaulted.
   */
  lemma StructIntoCoverage(ident: Ident, derive: ItemInput, fields: seq<FieldReceiver>, isTry: bool, h: Helpers, i: nat)
    requires i < |fields| && DistinctFieldNames(fields)
    ensures var body := StructInto(ident, derive, fields, isTry, h).body;
      var ty := derive.path.value.inner;
      (!FieldSkipped(fields[i], ty) <==> Binding(AsIdent(fields[i], i), AsIdent(fields[i], i)) in body.pattern.binds)
      && (!FieldSkipped(fields[i], ty) ==>
            Entry(OtherName(fields[i], i, ty), Converted(FieldValue(fields[i], i, ty, isTry, h))) in body.entries)
      && (fields[i].ident.Some? ==> (FieldSkipped(fields[i], ty) <==> fields[i].ident.value in body.pattern.ignored))
      && (forall x :: x in h.requestIgnore(derive) ==> Entry(Named(x), DefaultValue) in body.entries)
  {
    var ty := derive.path.value.inner;
    var ps := PlanFields(fields, ty, isTry, h);
    assert ps[i] == PlanField(fields[i], i, ty, isTry, h);
    var binds := Binds(ps, |ps|, false);
    var b := Binding(AsIdent(fields[i], i), AsIdent(fields[i], i));
    if !ps[i].skipped {
      BindsComplete(ps, |ps|, false, i);
      ConvertedComplete(ps, |ps|, true, i);
    }
    if b in binds {
      var j := BindsSound(ps, |ps|, false, b);
      assert ps[j] == PlanField(fields[j], j, ty, isTry, h);
      if j != i {
        LocalsDistinct(fields, ty, isTry, h, i, j);
      }
    }
    if fields[i].ident.Some? {
      var names := SkippedNames(ps, |ps|);
      if ps[i].skipped {
        SkippedNamesComplete(ps, |ps|, i);
      }
      if fields[i].ident.value in names {
        var j := SkippedNamesSound(ps, |ps|, fields[i].ident.value);
        assert ps[j] == PlanField(fields[j], j, ty, isTry, h);
      }
    }
    var defaults := DefaultEntries(h.requestIgnore(derive));
    forall x | x in h.requestIgnore(derive)
      ensures Entry(Named(x), DefaultValue) in ConvertedEntries(ps, |ps|, true) + defaults
    {
      var k :| 0 <= k < |h.requestIgnore(derive)| && h.requestIgnore(derive)[k] == x;
      assert defaults[k] == Entry(Named(x), DefaultValue);
    }
  }

  // ---------------------------------------------------------------------------
  // Enums
  // ---------------------------------------------------------------------------

  /** The variant's name on the other type: its `rename` for that type, if any. */
  function VariantOtherName(v: VariantReceiver, ty: TypePath): (n: Ident)
    ensures VariantRenameFor(v, ty).Some? ==> n == VariantRenameFor(v, ty).value
    ensures VariantRenameFor(v, ty).None? ==> n == v.ident
  {
    match VariantRenameFor(v, ty)
    case Some(r) => r
    case None => v.ident
  }

  function IgnoredOf(v: VariantReceiver, ty: TypePath, h: Helpers): seq<Ident>
  {
    match h.ignoreFor(v, ty)
    case Some(xs) => xs
    case None => []
  }

  /** The arm of `derive_enum_from` for one variant: the other type's variant to this one's. */
  function EnumFromArm(ident: Ident, ty: TypePath, v: VariantReceiver, isTry: bool, h: Helpers): Arm
  {
    var ps := PlanFields(v.fields, ty, isTry, h);
    MappedArm(OtherType(ty), VariantOtherName(v, ty), Pattern(Binds(ps, |ps|, true), IgnoredOf(v, ty, h)),
              SelfType(ident), v.ident, ConvertedEntries(ps, |ps|, false) + DefaultEntries(SkippedNames(ps, |ps|)))
  }

  /** The arm of `derive_enum_into` for one variant: this variant to the other type's. */
  function EnumIntoArm(ident: Ident, ty: TypePath, v: VariantReceiver, isTry: bool, h: Helpers): Arm
  {
    var ps := PlanFields(v.fields, ty, isTry, h);
    MappedArm(SelfType(ident), v.ident, Pattern(Binds(ps, |ps|, false), SkippedNames(ps, |ps|)),
              OtherType(ty), VariantOtherName(v, ty), ConvertedEntries(ps, |ps|, true) + DefaultEntries(IgnoredOf(v, ty, h)))
  }

  /** One variant as the generator sees it for a given type and direction. */
  datatype VariantPlan = VariantPlan(skipped: bool, ident: Ident, arm: Arm)

  function PlanVariant(ident: Ident, v: VariantReceiver, ty: TypePath, into: bool, isTry: bool, h: Helpers): VariantPlan
  {
    VariantPlan(VariantSkipped(v, ty), v.ident,
      if into then EnumIntoArm(ident, ty, v, isTry, h) else EnumFromArm(ident, ty, v, isTry, h))
  }

  function PlanVariants(ident: Ident, vs: seq<VariantReceiver>, ty: TypePath, into: bool, isTry: bool, h: Helpers, n: nat)
    : (r: seq<VariantPlan>)
    requires n <= |vs|
    ensures |r| == n
  {
    if n == 0 then []
    else PlanVariants(ident, vs, ty, into, isTry, h, n - 1) + [PlanVariant(ident, vs[n - 1], ty, into, isTry, h)]
  }

  lemma {:induction false} PlanVariantsAt(ident: Ident, vs: seq<VariantReceiver>, ty: TypePath, into: bool, isTry: bool,
                                          h: Helpers, n: nat, i: nat)
    requires i < n <= |vs|
    ensures PlanVariants(ident, vs, ty, into, isTry, h, n)[i] == PlanVariant(ident, vs[i], ty, into, isTry, h)
  {
    if i < n - 1 {
      PlanVariantsAt(ident, vs, ty, into, isTry, h, n - 1, i);
    }
  }

  /** `filtering_variants`: the arms of the first `n` variants that are not skipped, in order. */
  function MappedArms(vps: seq<VariantPlan>, n: nat): seq<Arm>
    requires n <= |vps|
  {
    if n == 0 then []
    else
      MappedArms(vps, n - 1) + (if vps[n - 1].skipped then [] else [vps[n - 1].arm])
  }

  /** A catch-all arm for each of the first `n` variants that is skipped. */
  function SkippedArms(vps: seq<VariantPlan>, n: nat, source: TypeRef): seq<Arm>
    requires n <= |vps|
  {
    if n == 0 then []
    else
      SkippedArms(vps, n - 1, source) + (if vps[n - 1].skipped then [DefaultArm(source, vps[n - 1].ident)] else [])
  }

  /** `include_extra_variants` for ignored variant names. */
  function IgnoredArms(source: TypeRef, names: seq<Ident>): (r: seq<Arm>)
    ensures |r| == |names|
    ensures forall i :: 0 <= i < |names| ==> r[i] == DefaultArm(source, names[i])
  {
    if |names| == 0 then [] else IgnoredArms(source, names[..|names| - 1]) + [DefaultArm(source, names[|names| - 1])]
  }

  lemma {:induction false} MappedArmsComplete(vps: seq<VariantPlan>, n: nat, i: nat)
    requires i < n <= |vps| && !vps[i].skipped
    ensures vps[i].arm in MappedArms(vps, n)
  {
    var prev := MappedArms(vps, n - 1);
    var last := if vps[n - 1].skipped then [] else [vps[n - 1].arm];
    assert MappedArms(vps, n) == prev + last;
    if i < n - 1 {
      MappedArmsComplete(vps, n - 1, i);
      assert vps[i].arm in prev;
    } else {
      assert vps[i].arm in last;
    }
  }

  lemma {:induction false} MappedArmsSound(vps: seq<VariantPlan>, n: nat, a: Arm) returns (i: nat)
    requires n <= |vps| && a in MappedArms(vps, n)
    ensures i < n && !vps[i].skipped && a == vps[i].arm
  {
    if a in MappedArms(vps, n - 1) {
      i := MappedArmsSound(vps, n - 1, a);
    } else {
      i := n - 1;
    }
  }

  lemma {:induction false} SkippedArmsComplete(vps: seq<VariantPlan>, n: nat, source: TypeRef, i: nat)
    requires i < n <= |vps| && vps[i].skipped
    ensures DefaultArm(source, vps[i].ident) in SkippedArms(vps, n, source)
  {
    var prev := SkippedArms(vps, n - 1, source);
    var last := if vps[n - 1].skipped then [DefaultArm(source, vps[n - 1].ident)] else [];
    assert SkippedArms(vps, n, source) == prev + last;
    if i < n - 1 {
      SkippedArmsComplete(vps, n - 1, source, i);
      assert DefaultArm(source, vps[i].ident) in prev;
    } else {
      assert DefaultArm(source, vps[i].ident) in last;
    }
  }

  lemma {:induction false} SkippedArmsSound(vps: seq<VariantPlan>, n: nat, source: TypeRef, a: Arm) returns (i: nat)
    requires n <= |vps| && a in SkippedArms(vps, n, source)
    ensures i < n && vps[i].skipped && a == DefaultArm(source, vps[i].ident)
  {
    if a in SkippedArms(vps, n - 1, source) {
      i := SkippedArmsSound(vps, n - 1, source, a);
    } else {
      i := n - 1;
    }
  }

  /** `derive_enum_from`: `From<Other>` (or `TryFrom`) for the annotated enum. */
  function EnumFrom(ident: Ident, derive: ItemInput, vs: seq<VariantReceiver>, isTry: bool, h: Helpers): ImplPlan
  {
    var ty := derive.path.value.inner;
    var vps := PlanVariants(ident, vs, ty, false, isTry, h, |vs|);
    ImplPlan(Kind(isTry), OtherType(ty), SelfType(ident), isTry,
      Match(MappedArms(vps, |vps|) + IgnoredArms(OtherType(ty), h.requestIgnore(derive))))
  }

  /** `derive_enum_into`: `From<Self>` (or `TryFrom`) for the other enum. */
  function EnumInto(ident: Ident, derive: ItemInput, vs: seq<VariantReceiver>, isTry: bool, h: Helpers): ImplPlan
  {
    var ty := derive.path.value.inner;
    var vps := PlanVariants(ident, vs, ty, true, isTry, h, |vs|);
    ImplPlan(Kind(isTry), SelfType(ident), OtherType(ty), isTry,
      Match(MappedArms(vps, |vps|) + SkippedArms(vps, |vps|, SelfType(ident))))
  }

  predicate DistinctVariantNames(vs: seq<VariantReceiver>)
  {
    forall i, j :: 0 <= i < |vs| && 0 <= j < |vs| && i != j ==> vs[i].ident != vs[j].ident
  }

  /** A `From` match: mapped arms, then catch-all arms; a variant is mapped exactly when not skipped. */
  lemma FromArmsExact(vps: seq<VariantPlan>, extra: seq<Arm>, i: nat)
    requires i < |vps|
    requires forall j :: 0 <= j < |vps| ==> vps[j].arm.MappedArm? && vps[j].arm.targetVariant == vps[j].ident
    requires forall j :: 0 <= j < |vps| && j != i ==> vps[j].ident != vps[i].ident
    requires forall a :: a in extra ==> a.DefaultArm?
    ensures !vps[i].skipped <==> vps[i].arm in MappedArms(vps, |vps|) + extra
    ensures forall a :: a in MappedArms(vps, |vps|) + extra && a.DefaultArm? ==> a in extra
  {
    if !vps[i].skipped {
      MappedArmsComplete(vps, |vps|, i);
    }
    if vps[i].arm in MappedArms(vps, |vps|) {
      var j := MappedArmsSound(vps, |vps|, vps[i].arm);
    }
    forall a | a in MappedArms(vps, |vps|) && a.DefaultArm?
      ensures false
    {
      var j := MappedArmsSound(vps, |vps|, a);
    }
  }

  /** A reverse match: mapped arms, then a catch-all arm for each skipped variant. */
  lemma IntoArmsExact(vps: seq<VariantPlan>, source: TypeRef, i: nat)
    requires i < |vps|
    requires forall j :: 0 <= j < |vps| ==> vps[j].arm.MappedArm? && vps[j].arm.variant == vps[j].ident
    requires forall j :: 0 <= j < |vps| && j != i ==> vps[j].ident != vps[i].ident
    ensures !vps[i].skipped <==> vps[i].arm in MappedArms(vps, |vps|) + SkippedArms(vps, |vps|, source)
    ensures vps[i].skipped <==> DefaultArm(source, vps[i].ident) in MappedArms(vps, |vps|) + SkippedArms(vps, |vps|, source)
  {
    var mapped := MappedArms(vps, |vps|);
    var extra := SkippedArms(vps, |vps|, source);
    var dflt := DefaultArm(source, vps[i].ident);
    if vps[i].skipped {
      SkippedArmsComplete(vps, |vps|, source, i);
    } else {
      MappedArmsComplete(vps, |vps|, i);
    }
    if vps[i].arm in extra {
      var j := SkippedArmsSound(vps, |vps|, source, vps[i].arm);
    }
    if vps[i].arm in mapped {
      var j := MappedArmsSound(vps, |vps|, vps[i].arm);
    }
    if dflt in mapped {
      var j := MappedArmsSound(vps, |vps|, dflt);
    }
    if dflt in extra {
      var j := SkippedArmsSound(vps, |vps|, source, dflt);
    }
  }

  /**
   * `derive_enum_from` maps a variant exactly when it is not skipped for the other type; its
   * other catch-all arms are exactly the request's ignored variants of the other type.
   */
  lemma EnumFromArms(ident: Ident, derive: ItemInput, vs: seq<VariantReceiver>, isTry: bool, h: Helpers, i: nat)
    requires i < |vs| && DistinctVariantNames(vs)
    ensures var arms := EnumFrom(ident, derive, vs, isTry, h).body.arms;
      var ty := derive.path.value.inner;
      (!VariantSkipped(vs[i], ty) <==> EnumFromArm(ident, ty, vs[i], isTry, h) in arms)
      && (forall a :: a in arms && a.DefaultArm? ==> a.source == OtherType(ty) && a.variant in h.requestIgnore(derive))
      && (forall x :: x in h.requestIgnore(derive) ==> DefaultArm(OtherType(ty), x) in arms)
  {
    var ty := derive.path.value.inner;
    var vps := PlanVariants(ident, vs, ty, false, isTry, h, |vs|);
    var extra := IgnoredArms(OtherType(ty), h.requestIgnore(derive));
    forall j | 0 <= j < |vps|
      ensures vps[j].arm.MappedArm? && vps[j].arm.targetVariant == vps[j].ident
      ensures vps[j].ident == vs[j].ident
    {
      PlanVariantsAt(ident, vs, ty, false, isTry, h, |vs|, j);
    }
    PlanVariantsAt(ident, vs, ty, false, isTry, h, |vs|, i);
    forall a | a in extra
      ensures a.DefaultArm? && a.source == OtherType(ty) && a.variant in h.requestIgnore(derive)
    {
      var k :| 0 <= k < |extra| && extra[k] == a;
    }
    FromArmsExact(vps, extra, i);
    forall x | x in h.requestIgnore(derive)
      ensures DefaultArm(OtherType(ty), x) in MappedArms(vps, |vps|) + extra
    {
      var k :| 0 <= k < |h.requestIgnore(derive)| && h.requestIgnore(derive)[k] == x;
      assert extra[k] == DefaultArm(OtherType(ty), x);
    }
  }

  /**
   * `derive_enum_into` maps a variant exactly when it is not skipped for the other type, and
   * turns it into the other type's default exactly when it is.
   */
  lemma EnumIntoArms(ident: Ident, derive: ItemInput, vs: seq<VariantReceiver>, isTry: bool, h: Helpers, i: nat)
    requires i < |vs| && DistinctVariantNames(vs)
    ensures var arms := EnumInto(ident, derive, vs, isTry, h).body.arms;
      var ty := derive.path.value.inner;
      (!VariantSkipped(vs[i], ty) <==> EnumIntoArm(ident, ty, vs[i], isTry, h) in arms)
      && (VariantSkipped(vs[i], ty) <==> DefaultArm(SelfType(ident), vs[i].ident) in arms)
  {
    var ty := derive.path.value.inner;
    var vps := PlanVariants(ident, vs, ty, true, isTry, h, |vs|);
    forall j | 0 <= j < |vps|
      ensures vps[j].arm.MappedArm? && vps[j].arm.variant == vps[j].ident
      ensures vps[j].ident == vs[j].ident
    {
      PlanVariantsAt(ident, vs, ty, true, isTry, h, |vs|, j);
    }
    PlanVariantsAt(ident, vs, ty, true, isTry, h, |vs|, i);
    IntoArmsExact(vps, SelfType(ident), i);
  }
}
