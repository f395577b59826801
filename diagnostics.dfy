/**
 * The diagnostics a run reports: a message and the location it is attached to.
 * Validation never stops at the first problem; every check appends to one list.
 */
module Diagnostics {
  import opened Syntax
  import opened TypePathExt

  datatype Msg =
    | MustSetTyOrDerive
    | IllegalWhenDerive
    | Duplicated
    | MissingDirection
    | DefaultOrCustomInto
    | ProvideFieldType
    | IllegalForEnums
    | MissingEnumDefault
    | VariantSkipNeedsDefault
    | NoDeriveForType
    | IllegalWhenScoped
    | DefaultOrCustomFrom
    | OnlyOneHint

  /** The message text each diagnostic is reported with. */
  function Text(m: Msg): string
  {
    match m
    case MustSetTyOrDerive => "One of 'ty' or 'derive' must be set"
    case IllegalWhenDerive => "Illegal attribute when 'derive' is set"
    case Duplicated => "This type is duplicated"
    case MissingDirection => "One of 'from', 'into', 'try_from' or 'try_into' must be set"
    case DefaultOrCustomInto => "Enable `default` here or include `custom` on `into` and `try_into` derives"
    case ProvideFieldType => "Provide a field type with `ty` if the field is not `default` to derive `into` and `try_into`"
    case IllegalForEnums => "Illegal attribute for enums"
    case MissingEnumDefault => "Missing mandatory `default` for enums when deriving `from` or `try_from`"
    case VariantSkipNeedsDefault => "Enable `default` here required for `into` and `try_into` derives"
    case NoDeriveForType => "There is no derive defined for this type"
    case IllegalWhenScoped => "Illegal attribute if 'when' is set"
    case DefaultOrCustomFrom => "Enable `default` here or include `custom` on `from` and `try_from` derives"
    case OnlyOneHint => "Only one of 'with', 'into_with'/'from_with', 'opt', 'iter' or 'map' can be set"
  }

  datatype Diagnostic = Diagnostic(span: Span, msg: Msg)

  /** Appending in two steps appends the concatenation; the loops below rely on it. */
  lemma AppendAssoc(diags: seq<Diagnostic>, done: seq<Diagnostic>, next: seq<Diagnostic>)
    ensures (diags + done) + next == diags + (done + next)
  {
  }

  /** What is in either part of a concatenation is in the whole. */
  lemma InAppend(x: Diagnostic, a: seq<Diagnostic>, b: seq<Diagnostic>)
    requires x in a
    ensures x in a + b && x in b + a
  {
  }

  /** A prefix of a sequence stays a prefix of it extended. */
  lemma PrefixAppend(p: seq<Diagnostic>, a: seq<Diagnostic>, b: seq<Diagnostic>)
    requires p <= a
    ensures p <= a + b
  {
    assert (a + b)[..|p|] == a[..|p|];
  }

  /** What is in a prefix is in the whole. */
  lemma InPrefix(x: Diagnostic, p: seq<Diagnostic>, a: seq<Diagnostic>)
    requires x in p && p <= a
    ensures x in a
  {
    var k :| 0 <= k < |p| && p[k] == x;
    assert a[k] == x;
  }

  /** The diagnostic `msg` at `span` when `cond` holds, nothing otherwise. */
  function EmitIf(cond: bool, span: Span, msg: Msg): seq<Diagnostic>
  {
    if cond then [Diagnostic(span, msg)] else []
  }

  // ---------------------------------------------------------------------------
  // The duplicate check run on request paths, and on the `when` paths of a
  // variant or a field: for every ordered pair i != j of equal paths, report j.
  // ---------------------------------------------------------------------------

  /** Row `i` of the nested loop, after its inner index has reached `n`. */
  function DuplicateRow(paths: seq<Spanned<TypePathWrapper>>, i: nat, n: nat): seq<Diagnostic>
    requires i < |paths| && n <= |paths|
  {
    if n == 0 then []
    else DuplicateRow(paths, i, n - 1)
         + EmitIf(i != n - 1 && Eq(paths[i].value, paths[n - 1].value), paths[n - 1].span, Duplicated)
  }

  /** The first `n` rows of the nested loop. */
  function DuplicateRows(paths: seq<Spanned<TypePathWrapper>>, n: nat): seq<Diagnostic>
    requires n <= |paths|
  {
    if n == 0 then [] else DuplicateRows(paths, n - 1) + DuplicateRow(paths, n - 1, |paths|)
  }

  function DuplicateDiagnostics(paths: seq<Spanned<TypePathWrapper>>): seq<Diagnostic>
  {
    DuplicateRows(paths, |paths|)
  }

  /** No two entries name the same type. */
  predicate Distinct(paths: seq<Spanned<TypePathWrapper>>)
  {
    forall i, j :: 0 <= i < |paths| && 0 <= j < |paths| && i != j ==> paths[i].value != paths[j].value
  }

  /** Entry `j` has a twin somewhere else in the list. */
  predicate HasTwin(paths: seq<Spanned<TypePathWrapper>>, j: nat)
  {
    j < |paths| && exists i :: 0 <= i < |paths| && i != j && paths[i].value == paths[j].value
  }

  /** The nested loops, appending to the run's diagnostics. */
  method CheckDuplicates(paths: seq<Spanned<TypePathWrapper>>, diags: seq<Diagnostic>) returns (out: seq<Diagnostic>)
    ensures out == diags + DuplicateDiagnostics(paths)
  {
    out := diags;
    var i := 0;
    while i < |paths|
      invariant 0 <= i <= |paths|
      invariant out == diags + DuplicateRows(paths, i)
    {
      var j := 0;
      while j < |paths|
        invariant 0 <= j <= |paths|
        invariant out == diags + DuplicateRows(paths, i) + DuplicateRow(paths, i, j)
      {
        if i != j && Eq(paths[i].value, paths[j].value) {
          out := out + [Diagnostic(paths[j].span, Duplicated)];
        }
        j := j + 1;
      }
      i := i + 1;
    }
  }

  /** Everything a row reports is a duplicate of an entry that has a twin. */
  lemma {:induction false} DuplicateRowSound(paths: seq<Spanned<TypePathWrapper>>, i: nat, n: nat)
    requires i < |paths| && n <= |paths|
    ensures forall d :: d in DuplicateRow(paths, i, n) ==>
      d.msg == Duplicated && exists j :: 0 <= j < n && HasTwin(paths, j) && d.span == paths[j].span
  {
    if n > 0 {
      DuplicateRowSound(paths, i, n - 1);
    }
  }

  /** Row `i` reports entry `j` whenever the two are distinct entries naming the same type. */
  lemma {:induction false} DuplicateRowComplete(paths: seq<Spanned<TypePathWrapper>>, i: nat, n: nat, j: nat)
    requires i < |paths| && j < n <= |paths|
    requires i != j && paths[i].value == paths[j].value
    ensures Diagnostic(paths[j].span, Duplicated) in DuplicateRow(paths, i, n)
  {
    if j < n - 1 {
      DuplicateRowComplete(paths, i, n - 1, j);
    }
  }

  lemma {:induction false} DuplicateRowsSound(paths: seq<Spanned<TypePathWrapper>>, n: nat)
    requires n <= |paths|
    ensures forall d :: d in DuplicateRows(paths, n) ==>
      d.msg == Duplicated && exists j :: 0 <= j < |paths| && HasTwin(paths, j) && d.span == paths[j].span
  {
    if n > 0 {
      var prev, row := DuplicateRows(paths, n - 1), DuplicateRow(paths, n - 1, |paths|);
      assert DuplicateRows(paths, n) == prev + row;
      DuplicateRowsSound(paths, n - 1);
      DuplicateRowSound(paths, n - 1, |paths|);
    }
  }

  /** What row `n - 1` reports, the first `n` rows report. */
  lemma DuplicateRowsLast(paths: seq<Spanned<TypePathWrapper>>, n: nat, x: Diagnostic)
    requires 0 < n <= |paths| && x in DuplicateRow(paths, n - 1, |paths|)
    ensures x in DuplicateRows(paths, n)
  {
    var prev, row := DuplicateRows(paths, n - 1), DuplicateRow(paths, n - 1, |paths|);
    assert DuplicateRows(paths, n) == prev + row;
    InAppend(x, row, prev);
  }

  /** Later rows only add diagnostics: the first `n` rows are a prefix of the first `m >= n`. */
  lemma {:induction false} DuplicateRowsPrefix(paths: seq<Spanned<TypePathWrapper>>, n: nat, m: nat)
    requires n <= m <= |paths|
    ensures DuplicateRows(paths, n) <= DuplicateRows(paths, m)
    decreases m
  {
    if m > n {
      DuplicateRowsPrefix(paths, n, m - 1);
      var prev, row := DuplicateRows(paths, m - 1), DuplicateRow(paths, m - 1, |paths|);
      assert DuplicateRows(paths, m) == prev + row;
      PrefixAppend(DuplicateRows(paths, n), prev, row);
    }
  }

  lemma DuplicateRowsComplete(paths: seq<Spanned<TypePathWrapper>>, n: nat, i: nat, j: nat)
    requires i < n <= |paths| && j < |paths|
    requires i != j && paths[i].value == paths[j].value
    ensures Diagnostic(paths[j].span, Duplicated) in DuplicateRows(paths, n)
  {
    var x := Diagnostic(paths[j].span, Duplicated);
    DuplicateRowComplete(paths, i, |paths|, j);
    DuplicateRowsLast(paths, i + 1, x);
    DuplicateRowsPrefix(paths, i + 1, n);
    InPrefix(x, DuplicateRows(paths, i + 1), DuplicateRows(paths, n));
  }

  /**
   * The duplicate check reports only "This type is duplicated", only at entries that
   * have a twin, and at every such entry; so it is silent iff the paths are distinct.
   */
  lemma DuplicateCheckExact(paths: seq<Spanned<TypePathWrapper>>)
    ensures forall d :: d in DuplicateDiagnostics(paths) ==>
      d.msg == Duplicated && exists j :: 0 <= j < |paths| && HasTwin(paths, j) && d.span == paths[j].span
    ensures forall j :: 0 <= j < |paths| && HasTwin(paths, j) ==> Diagnostic(paths[j].span, Duplicated) in DuplicateDiagnostics(paths)
    ensures DuplicateDiagnostics(paths) == [] <==> Distinct(paths)
  {
    DuplicateRowsSound(paths, |paths|);
    forall j | 0 <= j < |paths| && HasTwin(paths, j)
      ensures Diagnostic(paths[j].span, Duplicated) in DuplicateDiagnostics(paths)
    {
      var i :| 0 <= i < |paths| && i != j && paths[i].value == paths[j].value;
      DuplicateRowsComplete(paths, |paths|, i, j);
    }
    if DuplicateDiagnostics(paths) != [] {
      var d := DuplicateDiagnostics(paths)[0];
      assert d in DuplicateDiagnostics(paths);
      var j :| 0 <= j < |paths| && HasTwin(paths, j) && d.span == paths[j].span;
      var i :| 0 <= i < |paths| && i != j && paths[i].value == paths[j].value;
      assert !Distinct(paths);
    }
    if !Distinct(paths) {
      var i, j :| 0 <= i < |paths| && 0 <= j < |paths| && i != j && paths[i].value == paths[j].value;
      assert HasTwin(paths, j);
      assert Diagnostic(paths[j].span, Duplicated) in DuplicateDiagnostics(paths);
    }
  }
}
