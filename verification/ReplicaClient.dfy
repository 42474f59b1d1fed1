/** Unconditional writes and deletes built from the store's conditional ones
    by bounded retry loops. */
module ReplicaClient {
  import opened ObjectStore

  const CAS_RETRY_LIMIT := 8

  datatype Outcome = Done | StoreError | RetryLimit

  /** `key` was absent at some instant between the two moment counts. */
  ghost predicate AbsentBetween<B>(moments: seq<Contents<B>>, lo: nat, key: Key) {
    exists i :: lo <= i < |moments| && key !in moments[i]
  }

  /** Last-writer-wins put. Success is exactly one write of `b` at `key`; giving
      up on contention wrote nothing and takes eight rounds after the first try;
      a store error wrote at most once, and is reported exactly if a call failed. */
  method PutUnconditional<B(==, !new)>(s: Bucket<B>, key: Key, b: B) returns (r: Outcome)
    requires s.Valid()
    modifies s
    ensures s.Valid()
    ensures r == Done ==> s.effects == old(s.effects) + [Wrote(key, b)]
    ensures r == RetryLimit ==> s.effects == old(s.effects)
    ensures r == StoreError ==> s.effects == old(s.effects) || s.effects == old(s.effects) + [Wrote(key, b)]
    ensures s.failures == old(s.failures) + if r == StoreError then 1 else 0
    ensures r == RetryLimit ==> |s.moments| == |old(s.moments)| + 17
  {
    var first := s.PutIfAbsent(key, b);
    if !first.AlreadyExists? {
      return if first.Stored? then Done else StoreError;
    }
    for i := 0 to CAS_RETRY_LIMIT
      invariant s.Valid() && s.effects == old(s.effects) && s.failures == old(s.failures)
      invariant |s.moments| == |old(s.moments)| + 1 + 2 * i
    {
      var meta := s.Head(key);
      if meta.Absent? {
        var again := s.PutIfAbsent(key, b);
        if again.Stored? {
          return Done;
        } else if !again.AlreadyExists? {
          return StoreError;
        }
        continue;
      }
      if meta.HeadFailed? {
        return StoreError;
      }
      var put := s.PutIfVersionMatches(key, meta.version, b);
      if put.Stored? {
        return Done;
      }
      if !put.VersionMismatch? && !put.Missing? {
        return StoreError;
      }
    }
    return RetryLimit;
  }

  /** Success means `key` was absent at some instant of the call; at most one
      object was removed, and only at `key`. It gives up after eight rounds, and
      reports a store error exactly if a call failed. */
  method DeleteKey<B(==, !new)>(s: Bucket<B>, key: Key) returns (r: Outcome)
    requires s.Valid()
    modifies s
    ensures s.Valid() && old(s.moments) <= s.moments
    ensures r == Done ==> AbsentBetween(s.moments, |old(s.moments)|, key)
    ensures s.effects == old(s.effects) || (r != RetryLimit && s.effects == old(s.effects) + [Removed(key)])
    ensures s.failures == old(s.failures) + if r == StoreError then 1 else 0
    ensures r == RetryLimit ==> |s.moments| == |old(s.moments)| + 16
  {
    for i := 0 to CAS_RETRY_LIMIT
      invariant s.Valid() && s.effects == old(s.effects) && old(s.moments) <= s.moments
      invariant s.failures == old(s.failures) && |s.moments| == |old(s.moments)| + 2 * i
    {
      var meta := s.Head(key);
      if meta.Absent? {
        assert key !in s.moments[|s.moments| - 1];
        return Done;
      }
      if meta.HeadFailed? {
        return StoreError;
      }
      var del := s.DeleteIfVersionMatches(key, meta.version);
      if del.Deleted? || del.NothingThere? {
        assert key !in s.moments[|s.moments| - 1];
        return Done;
      }
      if !del.VersionChanged? {
        return StoreError;
      }
    }
    return RetryLimit;
  }
}
