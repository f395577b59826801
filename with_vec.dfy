/**
 * Runtime mappers for `Vec`: element-wise conversion, and the fallible version that
 * stops at the first element that fails. The element conversion (`Into::into`,
 * `ExtraInto::into_extra`, `TryInto::try_into` or `TryExtraInto::try_into_extra`) is
 * a function parameter, so one member stands for the plain and the `_extra` variant.
 */
module WithVec {
  import opened Wrappers

  /** `vec`, `vec_extra` and `ExtraInto for Vec`: `from.into_iter().map(conv).collect()`. */
  function Vec<F, I>(from: seq<F>, conv: F -> I): (r: seq<I>)
    ensures |r| == |from|
    ensures forall i :: 0 <= i < |from| ==> r[i] == conv(from[i])
  {
    if from == [] then [] else Vec(from[..|from| - 1], conv) + [conv(from[|from| - 1])]
  }

  /**
   * What `try_vec` returns: the elements converted in input order, each pushed in turn,
   * stopping at the first element whose conversion fails.
   */
  function TryCollect<F, I, E>(from: seq<F>, conv: F -> Result<I, E>): Result<seq<I>, E>
  {
    if from == [] then Ok([])
    else
      var last := from[|from| - 1];
      match TryCollect(from[..|from| - 1], conv)
      case Err(e) => Err(e)
      case Ok(done) =>
        match conv(last)
        case Err(e) => Err(e)
        case Ok(y) => Ok(done + [y])
  }

  /**
   * The collection succeeds exactly when every element converts, and then holds the
   * converted elements in order; otherwise its error is that of the first failing element.
   */
  lemma {:induction false} TryCollectMeaning<F, I, E>(from: seq<F>, conv: F -> Result<I, E>)
    ensures var r := TryCollect(from, conv);
      && (r.Ok? <==> forall i :: 0 <= i < |from| ==> conv(from[i]).Ok?)
      && (r.Ok? ==> |r.value| == |from| && forall i :: 0 <= i < |from| ==> r.value[i] == conv(from[i]).value)
      && (r.Err? ==> exists k :: 0 <= k < |from| && conv(from[k]).Err? && r.error == conv(from[k]).error
                                 && forall j :: 0 <= j < k ==> conv(from[j]).Ok?)
  {
    if from != [] {
      var pre := from[..|from| - 1];
      TryCollectMeaning(pre, conv);
      assert forall i :: 0 <= i < |pre| ==> pre[i] == from[i];
    }
  }

  /** A failure among the leading elements is the result, whatever the last element is. */
  lemma ErrBeforeLast<F, I, E>(xs: seq<F>, conv: F -> Result<I, E>)
    requires xs != [] && TryCollect(xs[..|xs| - 1], conv).Err?
    ensures TryCollect(xs, conv) == TryCollect(xs[..|xs| - 1], conv)
  {
  }

  /** After a successful prefix, the last element either fails the whole collection or is pushed. */
  lemma OkBeforeLast<F, I, E>(xs: seq<F>, done: seq<I>, conv: F -> Result<I, E>)
    requires xs != [] && TryCollect(xs[..|xs| - 1], conv) == Ok(done)
    ensures TryCollect(xs, conv) == match conv(xs[|xs| - 1]) case Err(e) => Err(e) case Ok(y) => Ok(done + [y])
  {
  }

  /**
   * Fail-fast: once a prefix has failed, nothing after it changes the outcome, so the
   * elements after the first failure play no part in the result.
   */
  lemma {:induction false} TryCollectStops<F, I, E>(from: seq<F>, rest: seq<F>, conv: F -> Result<I, E>)
    requires TryCollect(from, conv).Err?
    ensures TryCollect(from + rest, conv) == TryCollect(from, conv)
    decreases |rest|
  {
    if rest != [] {
      var pre, whole := rest[..|rest| - 1], from + rest;
      TryCollectStops(from, pre, conv);
      assert whole[..|whole| - 1] == from + pre;
      ErrBeforeLast(whole, conv);
    } else {
      assert from + rest == from;
    }
  }

  /** `try_vec`, `try_vec_extra` and `TryExtraInto for Vec`: push each success, return at the first `?` that fails. */
  method TryVec<F, I, E>(from: seq<F>, conv: F -> Result<I, E>) returns (r: Result<seq<I>, E>)
    ensures r == TryCollect(from, conv)
  {
    var ret: seq<I> := [];
    var i := 0;
    while i < |from|
      invariant 0 <= i <= |from|
      invariant TryCollect(from[..i], conv) == Ok(ret)
    {
      assert from[..i + 1][..i] == from[..i];
      OkBeforeLast(from[..i + 1], ret, conv);
      var x := conv(from[i]);
      if x.Err? {
        TryCollectStops(from[..i + 1], from[i + 1..], conv);
        assert from[..i + 1] + from[i + 1..] == from;
        return Err(x.error);
      }
      ret := ret + [x.value];
      i := i + 1;
    }
    assert from[..i] == from;
    return Ok(ret);
  }

  /** When no conversion can fail, the fallible mapper returns what the infallible one does. */
  lemma {:induction false} TryCollectOfTotal<F, I, E>(from: seq<F>, conv: F -> I, tryConv: F -> Result<I, E>)
    requires forall x :: tryConv(x) == Ok(conv(x))
    ensures TryCollect(from, tryConv) == Ok(Vec(from, conv))
  {
    if from != [] {
      TryCollectOfTotal(from[..|from| - 1], conv, tryConv);
    }
  }

  /** Mapping twice is mapping once with the composed conversion. */
  lemma {:induction false} VecCompose<F, M, I>(from: seq<F>, f: F -> M, g: M -> I)
    ensures Vec(Vec(from, f), g) == Vec(from, x => g(f(x)))
  {
    assert |Vec(Vec(from, f), g)| == |Vec(from, x => g(f(x)))|;
  }
}
