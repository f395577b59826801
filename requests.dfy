/**
 * `MapperOpts::items`: the list of conversion requests of one annotated type. Either
 * several `derive(...)` blocks (and then no top-level request option may be set), or the
 * top-level options as a single request, or neither, which aborts the expansion.
 */
module Requests {
  import opened Wrappers
  import opened Syntax
  import opened TypePathExt
  import opened Options
  import opened Diagnostics

  datatype ItemsOutcome = Requests(items: seq<ItemInput>) | Aborted

  /** One diagnostic at the `field` of each additional item. */
  function AddFieldDiagnostics(add: seq<AddInput>, msg: Msg): (r: seq<Diagnostic>)
    ensures |r| == |add|
    ensures forall i :: 0 <= i < |add| ==> r[i] == Diagnostic(add[i].field.span, msg)
  {
    if |add| == 0 then [] else AddFieldDiagnostics(add[..|add| - 1], msg) + [Diagnostic(add[|add| - 1].field.span, msg)]
  }

  /** The diagnostic `msg` at an option's location, when the option is set. */
  function IfSet<T>(o: Option<Spanned<T>>, msg: Msg): seq<Diagnostic>
  {
    if o.Some? then [Diagnostic(o.value.span, msg)] else []
  }

  /** Top-level request options that are illegal next to `derive(...)` blocks. */
  function IllegalTopLevel(opts: MapperOpts): seq<Diagnostic>
  {
    IllegalTopLevelFlags(opts) + AddFieldDiagnostics(opts.add, IllegalWhenDerive)
  }

  function IllegalTopLevelFlags(opts: MapperOpts): seq<Diagnostic>
  {
    IfSet(opts.path, IllegalWhenDerive)
    + IfSet(opts.from, IllegalWhenDerive)
    + IfSet(opts.into, IllegalWhenDerive)
    + IfSet(opts.tryFrom, IllegalWhenDerive)
    + IfSet(opts.tryInto, IllegalWhenDerive)
    + EmitIf(opts.ignoreExtra.value, opts.ignoreExtra.span, IllegalWhenDerive)
  }

  /** The `ty` of each request, with its location. */
  function SpannedRequestPaths(items: seq<ItemInput>): (r: seq<Spanned<TypePathWrapper>>)
    ensures |r| == |items| && forall i :: 0 <= i < |items| ==> r[i] == items[i].path
  {
    if |items| == 0 then [] else SpannedRequestPaths(items[..|items| - 1]) + [items[|items| - 1].path]
  }

  /** The top-level options as the single request they make. */
  function TopLevelRequest(opts: MapperOpts): ItemInput
    requires opts.path.Some?
  {
    ItemInput(opts.path.value, opts.from, opts.into, opts.tryFrom, opts.tryInto, opts.add, opts.ignoreExtra)
  }

  function RequestsOf(opts: MapperOpts): (r: ItemsOutcome)
    ensures r.Aborted? <==> opts.items == [] && opts.path.None?
    ensures r.Requests? ==> |r.items| >= 1
    ensures opts.items != [] ==> r == Requests(opts.items)
    ensures opts.items == [] && opts.path.Some? ==> |r.items| == 1 && r.items[0].path == opts.path.value
    ensures opts.items == [] && opts.path.Some? ==>
      && r.items[0].from == opts.from && r.items[0].into == opts.into
      && r.items[0].tryFrom == opts.tryFrom && r.items[0].tryInto == opts.tryInto
      && r.items[0].add == opts.add && r.items[0].ignoreExtra == opts.ignoreExtra
  {
    if opts.items != [] then Requests(opts.items)
    else if opts.path.Some? then Requests([TopLevelRequest(opts)])
    else Aborted
  }

  function RequestDiagnostics(opts: MapperOpts): seq<Diagnostic>
  {
    if opts.items != [] then IllegalTopLevel(opts) + DuplicateDiagnostics(SpannedRequestPaths(opts.items))
    else if opts.path.Some? then []
    else [Diagnostic(CallSite, MustSetTyOrDerive)]
  }

  /** The top-level request options that are set, one diagnostic each. */
  method ReportIllegalFlags(opts: MapperOpts, diags: seq<Diagnostic>) returns (out: seq<Diagnostic>)
    ensures out == diags + IllegalTopLevelFlags(opts)
  {
    var a := IfSet(opts.path, IllegalWhenDerive);
    var b := IfSet(opts.from, IllegalWhenDerive);
    var c := IfSet(opts.into, IllegalWhenDerive);
    var d := IfSet(opts.tryFrom, IllegalWhenDerive);
    var e := IfSet(opts.tryInto, IllegalWhenDerive);
    var f := EmitIf(opts.ignoreExtra.value, opts.ignoreExtra.span, IllegalWhenDerive);
    out := diags + a;
    out := out + b;
    AppendAssoc(diags, a, b);
    out := out + c;
    AppendAssoc(diags, a + b, c);
    out := out + d;
    AppendAssoc(diags, a + b + c, d);
    out := out + e;
    AppendAssoc(diags, a + b + c + d, e);
    out := out + f;
    AppendAssoc(diags, a + b + c + d + e, f);
  }

  /** One diagnostic per top-level `add`. */
  method ReportAddFields(add: seq<AddInput>, msg: Msg, diags: seq<Diagnostic>) returns (out: seq<Diagnostic>)
    ensures out == diags + AddFieldDiagnostics(add, msg)
  {
    out := diags;
    var k := 0;
    while k < |add|
      invariant 0 <= k <= |add|
      invariant out == diags + AddFieldDiagnostics(add[..k], msg)
    {
      assert add[..k + 1][..k] == add[..k];
      out := out + [Diagnostic(add[k].field.span, msg)];
      k := k + 1;
    }
    assert add[..|add|] == add;
  }

  /** The checks of the top-level options made when `derive(...)` blocks are present. */
  method ReportIllegalTopLevel(opts: MapperOpts, diags: seq<Diagnostic>) returns (out: seq<Diagnostic>)
    ensures out == diags + IllegalTopLevel(opts)
  {
    out := ReportIllegalFlags(opts, diags);
    out := ReportAddFields(opts.add, IllegalWhenDerive, out);
    AppendAssoc(diags, IllegalTopLevelFlags(opts), AddFieldDiagnostics(opts.add, IllegalWhenDerive));
  }

  method Items(opts: MapperOpts, diags: seq<Diagnostic>) returns (r: ItemsOutcome, out: seq<Diagnostic>)
    ensures r == RequestsOf(opts)
    ensures out == diags + RequestDiagnostics(opts)
  {
    if opts.items != [] {
      out := ReportIllegalTopLevel(opts, diags);
      out := CheckDuplicates(SpannedRequestPaths(opts.items), out);
      r := Requests(opts.items);
    } else if opts.path.Some? {
      out := diags;
      r := Requests([TopLevelRequest(opts)]);
    } else {
      out := diags + [Diagnostic(CallSite, MustSetTyOrDerive)];
      r := Aborted;
    }
  }

  /** Nothing illegal is reported iff no top-level request option is set. */
  lemma IllegalTopLevelExact(opts: MapperOpts)
    ensures IllegalTopLevel(opts) == [] <==>
      opts.path.None? && opts.from.None? && opts.into.None? && opts.tryFrom.None? && opts.tryInto.None?
      && !opts.ignoreExtra.value && opts.add == []
    ensures forall d :: d in IllegalTopLevel(opts) ==> d.msg == IllegalWhenDerive
  {
    var a := AddFieldDiagnostics(opts.add, IllegalWhenDerive);
    forall d | d in a ensures d.msg == IllegalWhenDerive {
      var i :| 0 <= i < |a| && a[i] == d;
    }
  }

  /**
   * A run whose request list raised no diagnostic has at least one request, and its
   * requests name pairwise distinct types.
   */
  lemma CleanRequestsDistinct(opts: MapperOpts)
    requires RequestDiagnostics(opts) == []
    ensures RequestsOf(opts).Requests?
    ensures Distinct(SpannedRequestPaths(RequestsOf(opts).items))
  {
    if opts.items != [] {
      DuplicateCheckExact(SpannedRequestPaths(opts.items));
    }
  }
}
