/** `parseNetworkInfo`: the walk over the store's network configuration that
    picks out the maximum object size and the homomorphic-hashing switch. */
module NetworkInfo {
  import opened Common
  import opened LittleEndian

  const MaxObjectSizeKey: string := "MaxObjectSize"
  const HomomorphicHashingDisabledKey: string := "HomomorphicHashingDisabled"

  /** One network configuration parameter. */
  datatype Parameter = Parameter(key: string, value: seq<byte>)

  /** The part of the `NetworkInfo` response this code reads. */
  datatype NetInfo = NetInfo(currentEpoch: u64, parameters: seq<Parameter>)

  /** `stackitem.NewByteArray(v).TryBool()`: neo-go's decoder is not part of
      this model, so it is a parameter; like the Go call it gives a boolean
      and an error. */
  type BoolDecoder = seq<byte> -> (bool, Option<Error>)

  /** The variables the walk's callback updates. */
  datatype ScanState = ScanState(maxObjSize: u64, hhDisabled: bool, err: Option<Error>)

  /** Before the walk: no size, hashing enabled, and the "missing max object
      size" error. */
  const ScanStart: ScanState := ScanState(0, false, Some(MissingMaxObjectSize))

  predicate IsKnownKey(key: string)
  {
    key == MaxObjectSizeKey || key == HomomorphicHashingDisabledKey
  }

  /** The walk from state s over ps: a size entry sets the size and clears the
      error, a hashing entry sets the flag and the error from its decoding and
      stops the walk when that decoding fails, other entries change nothing. */
  function ScanFrom(s: ScanState, ps: seq<Parameter>, tryBool: BoolDecoder): ScanState
    decreases |ps|
  {
    if ps == [] then s
    else if ps[0].key == MaxObjectSizeKey then
      ScanFrom(s.(maxObjSize := DecodeMaxObjectSize(ps[0].value), err := None), ps[1..], tryBool)
    else if ps[0].key == HomomorphicHashingDisabledKey then
      var (b, e) := tryBool(ps[0].value);
      var s' := s.(hhDisabled := b, err := e);
      if e.Some? then s' else ScanFrom(s', ps[1..], tryBool)
    else
      ScanFrom(s, ps[1..], tryBool)
  }

  /** What `parseNetworkInfo` returns. */
  datatype NetworkParams = NetworkParams(maxObjSize: u64, epoch: u64, hhDisabled: bool, err: Option<Error>)

  /** `parseNetworkInfo`: on a failed query everything is zero and the error
      is the query's; otherwise the epoch is the response's current epoch and
      the rest is the outcome of the walk. */
  method ParseNetworkInfo(info: Result<NetInfo, Error>, tryBool: BoolDecoder) returns (r: NetworkParams)
    ensures info.Failure? ==> r == NetworkParams(0, 0, false, Some(info.error))
    ensures info.Success? ==>
      var s := ScanFrom(ScanStart, info.value.parameters, tryBool);
      r == NetworkParams(s.maxObjSize, info.value.currentEpoch, s.hhDisabled, s.err)
  {
    if info.Failure? {
      return NetworkParams(0, 0, false, Some(info.error));
    }
    var ps := info.value.parameters;
    var epoch := info.value.currentEpoch;
    var maxObjSize: u64, hhDisabled, err := 0, false, Some(MissingMaxObjectSize);
    var i := 0;
    while i < |ps|
      invariant 0 <= i <= |ps|
      invariant ScanFrom(ScanState(maxObjSize, hhDisabled, err), ps[i..], tryBool)
                == ScanFrom(ScanStart, ps, tryBool)
    {
      assert ps[i..][1..] == ps[i + 1..];
      var p := ps[i];
      if p.key == MaxObjectSizeKey {
        maxObjSize := DecodeMaxObjectSize(p.value);
        err := None;
      } else if p.key == HomomorphicHashingDisabledKey {
        var (b, e) := tryBool(p.value);
        hhDisabled, err := b, e;
        if e.Some? {
          break;
        }
      }
      i := i + 1;
    }
    return NetworkParams(maxObjSize, epoch, hhDisabled, err);
  }

  /** The entries with a recognised key, in their order. */
  function KnownOnly(ps: seq<Parameter>): (known: seq<Parameter>)
  {
    if ps == [] then []
    else if IsKnownKey(ps[0].key) then [ps[0]] + KnownOnly(ps[1..])
    else KnownOnly(ps[1..])
  }

  /** Entries with other keys change nothing: the walk over the recognised
      entries alone ends in the same state. */
  lemma {:induction false} ScanIgnoresUnknownKeys(s: ScanState, ps: seq<Parameter>, tryBool: BoolDecoder)
    ensures ScanFrom(s, ps, tryBool) == ScanFrom(s, KnownOnly(ps), tryBool)
    decreases |ps|
  {
    if ps != [] {
      if IsKnownKey(ps[0].key) {
        var known := KnownOnly(ps);
        assert known[0] == ps[0] && known[1..] == KnownOnly(ps[1..]);
        if ps[0].key == MaxObjectSizeKey {
          ScanIgnoresUnknownKeys(s.(maxObjSize := DecodeMaxObjectSize(ps[0].value), err := None), ps[1..], tryBool);
        } else {
          var (b, e) := tryBool(ps[0].value);
          ScanIgnoresUnknownKeys(s.(hhDisabled := b, err := e), ps[1..], tryBool);
        }
      } else {
        ScanIgnoresUnknownKeys(s, ps[1..], tryBool);
      }
    }
  }

  /** No entry for the hashing switch fails to decode. */
  ghost predicate DecodesCleanly(ps: seq<Parameter>, tryBool: BoolDecoder)
  {
    forall i :: 0 <= i < |ps| && ps[i].key == HomomorphicHashingDisabledKey ==> tryBool(ps[i].value).1.None?
  }

  /** The value of the last entry with the given key, if there is one. */
  function LastValue(ps: seq<Parameter>, key: string): Option<seq<byte>>
  {
    if ps == [] then None
    else if LastValue(ps[1..], key).Some? then LastValue(ps[1..], key)
    else if ps[0].key == key then Some(ps[0].value)
    else None
  }

  /** Some entry has a recognised key. */
  ghost predicate HasKnownKey(ps: seq<Parameter>)
  {
    exists i :: 0 <= i < |ps| && IsKnownKey(ps[i].key)
  }

  lemma HasKnownKeyStep(ps: seq<Parameter>)
    requires ps != []
    ensures HasKnownKey(ps) <==> IsKnownKey(ps[0].key) || HasKnownKey(ps[1..])
  {
    if HasKnownKey(ps[1..]) {
      var i :| 0 <= i < |ps[1..]| && IsKnownKey(ps[1..][i].key);
      assert ps[i + 1] == ps[1..][i];
    }
    if HasKnownKey(ps) && !IsKnownKey(ps[0].key) {
      var i :| 0 <= i < |ps| && IsKnownKey(ps[i].key);
      assert i > 0 && ps[1..][i - 1] == ps[i];
    }
  }

  lemma DecodesCleanlyStep(ps: seq<Parameter>, tryBool: BoolDecoder)
    requires ps != [] && DecodesCleanly(ps, tryBool)
    ensures DecodesCleanly(ps[1..], tryBool)
    ensures ps[0].key == HomomorphicHashingDisabledKey ==> tryBool(ps[0].value).1.None?
  {
    forall i | 0 <= i < |ps| - 1 && ps[1..][i].key == HomomorphicHashingDisabledKey
      ensures tryBool(ps[1..][i].value).1.None?
    {
      assert ps[1..][i] == ps[i + 1];
    }
  }

  /** A walk that meets no decoding failure visits every entry: the size is
      that of the last size entry, the flag that of the last hashing entry,
      and the error is cleared as soon as any recognised entry is present,
      even when there is no size entry at all. */
  lemma {:induction false} ScanWithoutFailure(s: ScanState, ps: seq<Parameter>, tryBool: BoolDecoder)
    requires DecodesCleanly(ps, tryBool)
    ensures var r := ScanFrom(s, ps, tryBool);
      && r.maxObjSize == (match LastValue(ps, MaxObjectSizeKey)
                          case Some(v) => DecodeMaxObjectSize(v)
                          case None => s.maxObjSize)
      && r.hhDisabled == (match LastValue(ps, HomomorphicHashingDisabledKey)
                          case Some(v) => tryBool(v).0
                          case None => s.hhDisabled)
      && r.err == (if HasKnownKey(ps) then None else s.err)
    decreases |ps|
  {
    if ps != [] {
      DecodesCleanlyStep(ps, tryBool);
      HasKnownKeyStep(ps);
      var s' := if ps[0].key == MaxObjectSizeKey then s.(maxObjSize := DecodeMaxObjectSize(ps[0].value), err := None)
                else if ps[0].key == HomomorphicHashingDisabledKey then s.(hhDisabled := tryBool(ps[0].value).0, err := None)
                else s;
      assert ScanFrom(s, ps, tryBool) == ScanFrom(s', ps[1..], tryBool);
      ScanWithoutFailure(s', ps[1..], tryBool);
    }
  }

  /** The walk stops at the first hashing entry that fails to decode: what
      follows it is never looked at, and the walk ends with that entry's
      decoding error and flag. */
  lemma {:induction false} ScanStopsAtFirstFailure(s: ScanState, ps: seq<Parameter>, j: nat, tryBool: BoolDecoder)
    requires j < |ps| && ps[j].key == HomomorphicHashingDisabledKey && tryBool(ps[j].value).1.Some?
    requires DecodesCleanly(ps[..j], tryBool)
    ensures ScanFrom(s, ps, tryBool) == ScanFrom(s, ps[..j + 1], tryBool)
    ensures ScanFrom(s, ps, tryBool).err == tryBool(ps[j].value).1
    ensures ScanFrom(s, ps, tryBool).hhDisabled == tryBool(ps[j].value).0
    decreases |ps|
  {
    if j > 0 {
      assert ps[0] == ps[..j][0];
      DecodesCleanlyStep(ps[..j], tryBool);
      assert ps[..j][1..] == ps[1..][..j - 1];
      var s' := if ps[0].key == MaxObjectSizeKey then s.(maxObjSize := DecodeMaxObjectSize(ps[0].value), err := None)
                else if ps[0].key == HomomorphicHashingDisabledKey then s.(hhDisabled := tryBool(ps[0].value).0, err := None)
                else s;
      ScanStopsAtFirstFailure(s', ps[1..], j - 1, tryBool);
      assert ps[..j + 1][0] == ps[0] && ps[..j + 1][1..] == ps[1..][..j];
    }
  }

  /** A configuration whose only entry is a cleanly decoded hashing switch
      leaves no error and a maximum object size of zero. */
  lemma HashingEntryClearsMissingSize(v: seq<byte>, tryBool: BoolDecoder)
    requires tryBool(v).1.None?
    ensures var r := ScanFrom(ScanStart, [Parameter(HomomorphicHashingDisabledKey, v)], tryBool);
      r.err.None? && r.maxObjSize == 0 && r.hhDisabled == tryBool(v).0
  {
  }
}
