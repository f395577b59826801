/**
 * Which options of a variant or a field apply to one derived type: the first
 * `when(ty = ...)` block naming that type wins; otherwise the element's own options
 * apply, unless they carry a `ty` naming some other type.
 */
module Scoped {
  import opened Wrappers
  import opened Syntax
  import opened TypePathExt
  import opened Options

  /** The index of the first entry naming `target`, if any. */
  function FirstMatch(paths: seq<TypePathWrapper>, target: TypePath): (r: Option<nat>)
    ensures r.Some? ==> r.value < |paths| && paths[r.value] == TypePathWrapper(target)
    ensures r.Some? ==> forall k :: 0 <= k < r.value ==> paths[k] != TypePathWrapper(target)
    ensures r.None? <==> forall k :: 0 <= k < |paths| ==> paths[k] != TypePathWrapper(target)
  {
    if |paths| == 0 then None
    else if EqPath(paths[0], target) then Some(0)
    else
      match FirstMatch(paths[1..], target)
      case None => None
      case Some(i) => Some(i + 1)
  }

  /** The `ty` of each `when` block of a variant. */
  function VariantWhenPaths(items: seq<ItemVariantInput>): (r: seq<TypePathWrapper>)
    ensures |r| == |items| && forall i :: 0 <= i < |items| ==> r[i] == items[i].path.value
  {
    if |items| == 0 then [] else VariantWhenPaths(items[..|items| - 1]) + [items[|items| - 1].path.value]
  }

  /** The `ty` of each `when` block of a field. */
  function FieldWhenPaths(items: seq<ItemFieldInput>): (r: seq<TypePathWrapper>)
    ensures |r| == |items| && forall i :: 0 <= i < |items| ==> r[i] == items[i].path.value
  {
    if |items| == 0 then [] else FieldWhenPaths(items[..|items| - 1]) + [items[|items| - 1].path.value]
  }

  /** The position of the first conversion request whose `ty` is `target`, if any. */
  function RequestIndex(derives: seq<ItemInput>, target: TypePath): (r: Option<nat>)
    ensures r.Some? ==> r.value < |derives|
  {
    if |derives| == 0 then None
    else if EqPath(derives[0].path.value, target) then Some(0)
    else
      match RequestIndex(derives[1..], target)
      case None => None
      case Some(i) => Some(i + 1)
  }

  /** The position found names `target` and no earlier request does; none is found iff no request names it. */
  lemma {:induction false} RequestIndexMeaning(derives: seq<ItemInput>, target: TypePath)
    ensures var r := RequestIndex(derives, target);
      && (r.Some? ==> derives[r.value].path.value.inner == target
                      && forall k :: 0 <= k < r.value ==> derives[k].path.value.inner != target)
      && (r.None? <==> forall k :: 0 <= k < |derives| ==> derives[k].path.value.inner != target)
  {
    if |derives| > 0 && !EqPath(derives[0].path.value, target) {
      RequestIndexMeaning(derives[1..], target);
      assert forall k :: 0 < k < |derives| ==> derives[k] == derives[1..][k - 1];
    }
  }

  /** Where the options for one derived type come from. */
  datatype Scope = WhenBlock(index: nat) | OwnOptions | NotScoped

  /** `i` is the first `when` block naming `target`. */
  predicate IsFirstWhen(whenPaths: seq<TypePathWrapper>, target: TypePath, i: nat)
  {
    i < |whenPaths| && whenPaths[i] == TypePathWrapper(target)
    && forall k :: 0 <= k < i ==> whenPaths[k] != TypePathWrapper(target)
  }

  predicate NoWhenFor(whenPaths: seq<TypePathWrapper>, target: TypePath)
  {
    forall k :: 0 <= k < |whenPaths| ==> whenPaths[k] != TypePathWrapper(target)
  }

  /** The element's own options apply to `target`: they carry no `ty`, or this one. */
  predicate OwnApplies(path: Option<Spanned<TypePathWrapper>>, target: TypePath)
  {
    path.None? || path.value.value == TypePathWrapper(target)
  }

  function ScopeFor(whenPaths: seq<TypePathWrapper>, path: Option<Spanned<TypePathWrapper>>, target: TypePath): (s: Scope)
    ensures s.WhenBlock? <==> !NoWhenFor(whenPaths, target)
    ensures s.WhenBlock? ==> IsFirstWhen(whenPaths, target, s.index)
    ensures forall i: nat :: IsFirstWhen(whenPaths, target, i) ==> s == WhenBlock(i)
    ensures s.OwnOptions? <==> NoWhenFor(whenPaths, target) && OwnApplies(path, target)
  {
    match FirstMatch(whenPaths, target)
    case Some(i) => WhenBlock(i)
    case None =>
      match path
      case None => OwnOptions
      case Some(p) => if EqPath(p.value, target) then OwnOptions else NotScoped
  }

  /** The search loop every lookup starts with, followed by the check of the element's own `ty`. */
  method ResolveScope(whenPaths: seq<TypePathWrapper>, path: Option<Spanned<TypePathWrapper>>, target: TypePath)
    returns (s: Scope)
    ensures s == ScopeFor(whenPaths, path, target)
  {
    var i := 0;
    while i < |whenPaths|
      invariant 0 <= i <= |whenPaths|
      invariant forall k :: 0 <= k < i ==> whenPaths[k] != TypePathWrapper(target)
    {
      if EqPath(whenPaths[i], target) {
        return WhenBlock(i);
      }
      i := i + 1;
    }
    if path.Some? {
      if EqPath(path.value.value, target) {
        s := OwnOptions;
      } else {
        s := NotScoped;
      }
    } else {
      s := OwnOptions;
    }
  }

  function VariantScope(v: VariantReceiver, target: TypePath): Scope
  {
    ScopeFor(VariantWhenPaths(v.items), v.path, target)
  }

  function FieldScope(f: FieldReceiver, target: TypePath): Scope
  {
    ScopeFor(FieldWhenPaths(f.items), f.path, target)
  }

  /** An additional-items list, or `None` when it is empty. */
  function NonEmpty(add: seq<AddInput>): (r: Option<seq<AddInput>>)
    ensures r.None? <==> add == []
    ensures r.Some? ==> r.value == add
  {
    if add == [] then None else Some(add)
  }

  function VariantRenameFor(v: VariantReceiver, target: TypePath): (r: Option<Ident>)
    ensures forall i: nat :: IsFirstWhen(VariantWhenPaths(v.items), target, i) ==> r == Unspan(v.items[i].rename)
    ensures NoWhenFor(VariantWhenPaths(v.items), target) ==>
      r == if OwnApplies(v.path, target) then Unspan(v.rename) else None
  {
    match VariantScope(v, target)
    case WhenBlock(i) => Unspan(v.items[i].rename)
    case OwnOptions => Unspan(v.rename)
    case NotScoped => None
  }

  function AdditionalFor(v: VariantReceiver, target: TypePath): (r: Option<seq<AddInput>>)
    ensures r.Some? ==> r.value != []
    ensures forall i: nat :: IsFirstWhen(VariantWhenPaths(v.items), target, i) ==> r == NonEmpty(v.items[i].add)
    ensures NoWhenFor(VariantWhenPaths(v.items), target) ==>
      r == if OwnApplies(v.path, target) then NonEmpty(v.add) else None
  {
    match VariantScope(v, target)
    case WhenBlock(i) => NonEmpty(v.items[i].add)
    case OwnOptions => NonEmpty(v.add)
    case NotScoped => None
  }

  function VariantSkipFor(v: VariantReceiver, target: TypePath): (r: Option<Override<SkipInput>>)
    ensures forall i: nat :: IsFirstWhen(VariantWhenPaths(v.items), target, i) ==> r == Unspan(v.items[i].skip)
    ensures NoWhenFor(VariantWhenPaths(v.items), target) ==>
      r == if OwnApplies(v.path, target) then Unspan(v.skip) else None
  {
    match VariantScope(v, target)
    case WhenBlock(i) => Unspan(v.items[i].skip)
    case OwnOptions => Unspan(v.skip)
    case NotScoped => None
  }

  function IgnoreExtraFor(v: VariantReceiver, target: TypePath): (r: bool)
    ensures forall i: nat :: IsFirstWhen(VariantWhenPaths(v.items), target, i) ==> r == v.items[i].ignoreExtra.value
    ensures NoWhenFor(VariantWhenPaths(v.items), target) ==>
      r == (OwnApplies(v.path, target) && v.ignoreExtra.value)
  {
    match VariantScope(v, target)
    case WhenBlock(i) => v.items[i].ignoreExtra.value
    case OwnOptions => v.ignoreExtra.value
    case NotScoped => false
  }

  function FieldRenameFor(f: FieldReceiver, target: TypePath): (r: Option<Ident>)
    ensures forall i: nat :: IsFirstWhen(FieldWhenPaths(f.items), target, i) ==> r == Unspan(f.items[i].rename)
    ensures NoWhenFor(FieldWhenPaths(f.items), target) ==>
      r == if OwnApplies(f.path, target) then Unspan(f.rename) else None
  {
    match FieldScope(f, target)
    case WhenBlock(i) => Unspan(f.items[i].rename)
    case OwnOptions => Unspan(f.rename)
    case NotScoped => None
  }

  function FieldSkipFor(f: FieldReceiver, target: TypePath): (r: Option<Override<SkipInput>>)
    ensures forall i: nat :: IsFirstWhen(FieldWhenPaths(f.items), target, i) ==> r == Unspan(f.items[i].skip)
    ensures NoWhenFor(FieldWhenPaths(f.items), target) ==>
      r == if OwnApplies(f.path, target) then Unspan(f.skip) else None
  {
    match FieldScope(f, target)
    case WhenBlock(i) => Unspan(f.items[i].skip)
    case OwnOptions => Unspan(f.skip)
    case NotScoped => None
  }

  function OtherTyFor(f: FieldReceiver, target: TypePath): (r: Option<Ident>)
    ensures forall i: nat :: IsFirstWhen(FieldWhenPaths(f.items), target, i) ==> r == Unspan(f.items[i].otherTy)
    ensures NoWhenFor(FieldWhenPaths(f.items), target) ==>
      r == if OwnApplies(f.path, target) then Unspan(f.otherTy) else None
  {
    match FieldScope(f, target)
    case WhenBlock(i) => Unspan(f.items[i].otherTy)
    case OwnOptions => Unspan(f.otherTy)
    case NotScoped => None
  }

  function HintFor(f: FieldReceiver, target: TypePath): (r: Option<MapperHint>)
    ensures forall i: nat :: IsFirstWhen(FieldWhenPaths(f.items), target, i) ==> r == Some(f.items[i].hint)
    ensures NoWhenFor(FieldWhenPaths(f.items), target) ==>
      r == if OwnApplies(f.path, target) then Some(f.hint) else None
  {
    match FieldScope(f, target)
    case WhenBlock(i) => Some(f.items[i].hint)
    case OwnOptions => Some(f.hint)
    case NotScoped => None
  }

  /** A field without `ty` and without `when` blocks has the same options for every derived type. */
  lemma UnscopedFieldUniform(f: FieldReceiver, t1: TypePath, t2: TypePath)
    requires f.items == [] && f.path.None?
    ensures FieldRenameFor(f, t1) == FieldRenameFor(f, t2)
    ensures FieldSkipFor(f, t1) == FieldSkipFor(f, t2)
    ensures OtherTyFor(f, t1) == OtherTyFor(f, t2)
    ensures HintFor(f, t1) == HintFor(f, t2)
  {
    assert NoWhenFor(FieldWhenPaths(f.items), t1) && NoWhenFor(FieldWhenPaths(f.items), t2);
  }

  /**
   * A field whose own options name one type (and that has no `when` block for the other)
   * contributes nothing to the conversion with any other type.
   */
  lemma TypedFieldOnlyThere(f: FieldReceiver, target: TypePath)
    requires f.path.Some? && f.path.value.value != TypePathWrapper(target)
    requires NoWhenFor(FieldWhenPaths(f.items), target)
    ensures FieldRenameFor(f, target).None? && FieldSkipFor(f, target).None?
    ensures OtherTyFor(f, target).None? && HintFor(f, target).None?
  {
  }

  /** A `when` block for a type overrides everything written on the field itself for that type. */
  lemma WhenOverridesOwn(f: FieldReceiver, g: FieldReceiver, target: TypePath)
    requires f.items == g.items && !NoWhenFor(FieldWhenPaths(f.items), target)
    ensures FieldRenameFor(f, target) == FieldRenameFor(g, target)
    ensures FieldSkipFor(f, target) == FieldSkipFor(g, target)
    ensures OtherTyFor(f, target) == OtherTyFor(g, target)
    ensures HintFor(f, target) == HintFor(g, target)
  {
    var i := FieldScope(f, target).index;
    assert IsFirstWhen(FieldWhenPaths(g.items), target, i);
  }

  /** The same for variants. */
  lemma VariantWhenOverridesOwn(v: VariantReceiver, w: VariantReceiver, target: TypePath)
    requires v.items == w.items && !NoWhenFor(VariantWhenPaths(v.items), target)
    ensures VariantRenameFor(v, target) == VariantRenameFor(w, target)
    ensures AdditionalFor(v, target) == AdditionalFor(w, target)
    ensures VariantSkipFor(v, target) == VariantSkipFor(w, target)
    ensures IgnoreExtraFor(v, target) == IgnoreExtraFor(w, target)
  {
    var i := VariantScope(v, target).index;
    assert IsFirstWhen(VariantWhenPaths(w.items), target, i);
  }

  /** `find` over the conversion requests: the first one whose `ty` is `target`. */
  method FindRequest(derives: seq<ItemInput>, target: TypePathWrapper) returns (r: Option<nat>)
    ensures r == RequestIndex(derives, target.inner)
  {
    RequestIndexMeaning(derives, target.inner);
    var i := 0;
    while i < |derives|
      invariant 0 <= i <= |derives|
      invariant forall k :: 0 <= k < i ==> derives[k].path.value != target
    {
      if Eq(derives[i].path.value, target) {
        return Some(i);
      }
      i := i + 1;
    }
    return None;
  }
}
