/**
 * Runtime mappers for `HashMap`. A map's iteration order is unspecified, so the input
 * is any sequence of its entries; collecting inserts them in that order.
 */
module WithHashMap {
  import opened Wrappers

  /** The two ways an entry can fail to convert; `anyhow` keeps whichever came first. */
  datatype EntryError<EK, EV> = KeyError(key: EK) | ValueError(value: EV)

  /** `hashmap`, `hashmap_extra`, `ExtraInto for HashMap`: `(k.into(), v.into())` collected into a map. */
  function HashMap<KF, VF, KI(==), VI>(from: seq<(KF, VF)>, keyConv: KF -> KI, valueConv: VF -> VI): (r: map<KI, VI>)
    ensures r.Keys == set i | 0 <= i < |from| :: keyConv(from[i].0)
    ensures forall k :: k in r ==> exists i :: 0 <= i < |from| && keyConv(from[i].0) == k && r[k] == valueConv(from[i].1)
  {
    if from == [] then map[]
    else
      var pre, last := from[..|from| - 1], from[|from| - 1];
      var m := HashMap(pre, keyConv, valueConv);
      assert forall i :: 0 <= i < |pre| ==> pre[i] == from[i];
      m[keyConv(last.0) := valueConv(last.1)]
  }

  /** The failure an entry reports: its key's error before its value's (`insert(k?, v?)`). */
  function EntryFailure<KF, VF, KI, VI, EK, EV>(entry: (KF, VF), keyConv: KF -> Result<KI, EK>, valueConv: VF -> Result<VI, EV>): (r: Option<EntryError<EK, EV>>)
    ensures r.None? <==> keyConv(entry.0).Ok? && valueConv(entry.1).Ok?
    ensures keyConv(entry.0).Err? ==> r == Some(KeyError(keyConv(entry.0).error))
    ensures keyConv(entry.0).Ok? && valueConv(entry.1).Err? ==> r == Some(ValueError(valueConv(entry.1).error))
  {
    match keyConv(entry.0)
    case Err(ek) => Some(KeyError(ek))
    case Ok(_) =>
      match valueConv(entry.1)
      case Err(ev) => Some(ValueError(ev))
      case Ok(_) => None
  }

  /**
   * What `try_hashmap` returns: the converted map if every key and value converts,
   * otherwise the failure of the first failing entry in iteration order.
   */
  function TryCollectMap<KF, VF, KI(==), VI, EK, EV>(from: seq<(KF, VF)>, keyConv: KF -> Result<KI, EK>, valueConv: VF -> Result<VI, EV>)
    : Result<map<KI, VI>, EntryError<EK, EV>>
  {
    if from == [] then Ok(map[])
    else
      var pre, last := from[..|from| - 1], from[|from| - 1];
      match TryCollectMap(pre, keyConv, valueConv)
      case Err(e) => Err(e)
      case Ok(m) =>
        match EntryFailure(last, keyConv, valueConv)
        case Some(e) => Err(e)
        case None => Ok(m[keyConv(last.0).value := valueConv(last.1).value])
  }

  /**
   * The collection succeeds exactly when every entry converts; otherwise its error is
   * the failure of the first failing entry.
   */
  lemma {:induction false} TryCollectMapMeaning<KF, VF, KI, VI, EK, EV>(
    from: seq<(KF, VF)>, keyConv: KF -> Result<KI, EK>, valueConv: VF -> Result<VI, EV>)
    ensures var r := TryCollectMap(from, keyConv, valueConv);
      && (r.Ok? <==> forall i :: 0 <= i < |from| ==> EntryFailure(from[i], keyConv, valueConv).None?)
      && (r.Err? ==> exists n :: 0 <= n < |from| && EntryFailure(from[n], keyConv, valueConv) == Some(r.error)
                                 && forall j :: 0 <= j < n ==> EntryFailure(from[j], keyConv, valueConv).None?)
  {
    if from != [] {
      var pre := from[..|from| - 1];
      TryCollectMapMeaning(pre, keyConv, valueConv);
      assert forall i :: 0 <= i < |pre| ==> pre[i] == from[i];
    }
  }

  /**
   * On success the keys are exactly the converted input keys, and every entry is the
   * converted key and value of some input entry.
   */
  lemma {:induction false} TryCollectMapEntries<KF, VF, KI, VI, EK, EV>(
    from: seq<(KF, VF)>, keyConv: KF -> Result<KI, EK>, valueConv: VF -> Result<VI, EV>)
    requires TryCollectMap(from, keyConv, valueConv).Ok?
    ensures var m := TryCollectMap(from, keyConv, valueConv).value;
      && m.Keys == (set i | 0 <= i < |from| && keyConv(from[i].0).Ok? :: keyConv(from[i].0).value)
      && forall k :: k in m ==> exists i :: 0 <= i < |from| && keyConv(from[i].0) == Ok(k) && valueConv(from[i].1) == Ok(m[k])
  {
    if from != [] {
      var pre, last := from[..|from| - 1], from[|from| - 1];
      assert forall i :: 0 <= i < |pre| ==> pre[i] == from[i];
      TryCollectMapEntries(pre, keyConv, valueConv);
      var m := TryCollectMap(from, keyConv, valueConv).value;
      var mp := TryCollectMap(pre, keyConv, valueConv).value;
      assert m == mp[keyConv(last.0).value := valueConv(last.1).value];
      assert keyConv(from[|from| - 1].0).Ok?;
    }
  }

  /** A failure among the leading entries is the result, whatever the last entry is. */
  lemma ErrBeforeLast<KF, VF, KI, VI, EK, EV>(
    xs: seq<(KF, VF)>, keyConv: KF -> Result<KI, EK>, valueConv: VF -> Result<VI, EV>)
    requires xs != [] && TryCollectMap(xs[..|xs| - 1], keyConv, valueConv).Err?
    ensures TryCollectMap(xs, keyConv, valueConv) == TryCollectMap(xs[..|xs| - 1], keyConv, valueConv)
  {
  }

  /** After a successful prefix, the last entry either fails the whole collection or is inserted. */
  lemma OkBeforeLast<KF, VF, KI, VI, EK, EV>(
    xs: seq<(KF, VF)>, m: map<KI, VI>, keyConv: KF -> Result<KI, EK>, valueConv: VF -> Result<VI, EV>)
    requires xs != [] && TryCollectMap(xs[..|xs| - 1], keyConv, valueConv) == Ok(m)
    ensures var last := xs[|xs| - 1];
      TryCollectMap(xs, keyConv, valueConv) ==
        match EntryFailure(last, keyConv, valueConv)
        case Some(e) => Err(e)
        case None => Ok(m[keyConv(last.0).value := valueConv(last.1).value])
  {
  }

  /** Fail-fast: once some entries have failed, the entries after them change nothing. */
  lemma {:induction false} TryCollectMapStops<KF, VF, KI, VI, EK, EV>(
    from: seq<(KF, VF)>, rest: seq<(KF, VF)>, keyConv: KF -> Result<KI, EK>, valueConv: VF -> Result<VI, EV>)
    requires TryCollectMap(from, keyConv, valueConv).Err?
    ensures TryCollectMap(from + rest, keyConv, valueConv) == TryCollectMap(from, keyConv, valueConv)
    decreases |rest|
  {
    if rest != [] {
      var pre, whole := rest[..|rest| - 1], from + rest;
      TryCollectMapStops(from, pre, keyConv, valueConv);
      assert whole[..|whole| - 1] == from + pre;
      ErrBeforeLast(whole, keyConv, valueConv);
    } else {
      assert from + rest == from;
    }
  }

  /** `try_hashmap`, `try_hashmap_extra`, `TryExtraInto for HashMap`: insert each entry, return at the first `?` that fails. */
  method TryHashMap<KF, VF, KI(==), VI, EK, EV>(from: seq<(KF, VF)>, keyConv: KF -> Result<KI, EK>, valueConv: VF -> Result<VI, EV>)
    returns (r: Result<map<KI, VI>, EntryError<EK, EV>>)
    ensures r == TryCollectMap(from, keyConv, valueConv)
  {
    var ret: map<KI, VI> := map[];
    var i := 0;
    while i < |from|
      invariant 0 <= i <= |from|
      invariant TryCollectMap(from[..i], keyConv, valueConv) == Ok(ret)
    {
      assert from[..i + 1][..i] == from[..i];
      OkBeforeLast(from[..i + 1], ret, keyConv, valueConv);
      var (k, v) := (keyConv(from[i].0), valueConv(from[i].1));
      if k.Err? || v.Err? {
        var e := if k.Err? then KeyError(k.error) else ValueError(v.error);
        TryCollectMapStops(from[..i + 1], from[i + 1..], keyConv, valueConv);
        assert from[..i + 1] + from[i + 1..] == from;
        return Err(e);
      }
      ret := ret[k.value := v.value];
      i := i + 1;
    }
    assert from[..i] == from;
    return Ok(ret);
  }

  /** When nothing can fail, the fallible mapper returns what the infallible one does. */
  lemma {:induction false} TryCollectMapOfTotal<KF, VF, KI, VI, EK, EV>(
    from: seq<(KF, VF)>, keyConv: KF -> KI, valueConv: VF -> VI,
    tryKey: KF -> Result<KI, EK>, tryValue: VF -> Result<VI, EV>)
    requires forall k :: tryKey(k) == Ok(keyConv(k))
    requires forall v :: tryValue(v) == Ok(valueConv(v))
    ensures TryCollectMap(from, tryKey, tryValue) == Ok(HashMap(from, keyConv, valueConv))
  {
    if from != [] {
      var pre := from[..|from| - 1];
      TryCollectMapOfTotal(pre, keyConv, valueConv, tryKey, tryValue);
    }
  }
}
