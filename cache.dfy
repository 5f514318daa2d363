/**
 * The result cache of core/cache.go: the last status seen for each
 * (box id, EventID) pair, used to report only results whose status changed.
 * The viper store is a map held by a class; reading and writing the YAML
 * file is not part of this model.
 */
module ResultCache {
  import opened Support
  import opened OsemApi
  import HC = HealthChecks
  import opened CheckRunner

  /** (box id, EventID) to the last status stored under it. */
  type Store = map<(string, string), string>

  /**
   * The result differs from what the store remembers. A missing entry reads
   * as a nil interface, which no status equals, so it counts as a change.
   */
  predicate Changed(store: Store, hash: string -> string, boxId: string, r: HC.CheckResult)
  {
    var key := (boxId, HC.EventID(hash, r));
    key !in store || store[key] != r.status
  }

  /** One box's changed results, order kept. */
  function KeepChanged(store: Store, hash: string -> string, boxId: string, rs: seq<HC.CheckResult>): seq<HC.CheckResult>
  {
    if rs == [] then []
    else
      KeepChanged(store, hash, boxId, rs[..|rs| - 1]) +
        (if Changed(store, hash, boxId, rs[|rs| - 1]) then [rs[|rs| - 1]] else [])
  }

  /** Every box, each with its changed results. */
  function Filter(store: Store, hash: string -> string, results: BoxCheckResults): BoxCheckResults
  {
    if results == [] then []
    else
      var b := results[|results| - 1];
      Filter(store, hash, results[..|results| - 1]) + [BoxResults(b.box, KeepChanged(store, hash, b.box.id, b.results))]
  }

  /** The store after writing each result's status under its key, in order. */
  function Updated(store: Store, hash: string -> string, boxId: string, rs: seq<HC.CheckResult>): Store
  {
    if rs == [] then store
    else
      var r := rs[|rs| - 1];
      Updated(store, hash, boxId, rs[..|rs| - 1])[(boxId, HC.EventID(hash, r)) := r.status]
  }

  class Cache {
    var entries: Store

    constructor()
      ensures entries == map[]
    {
      entries := map[];
    }

    /** filterChangedFromCache: reads the store and leaves it as it is. */
    method FilterChangedFromCache(hash: string -> string, results: BoxCheckResults) returns (remaining: BoxCheckResults)
      ensures remaining == Filter(entries, hash, results)
    {
      remaining := [];
      for i := 0 to |results|
        invariant remaining == Filter(entries, hash, results[..i])
      {
        assert results[..i + 1][..i] == results[..i];
        var box, boxResults := results[i].box, results[i].results;
        var kept: seq<HC.CheckResult> := [];
        for j := 0 to |boxResults|
          invariant kept == KeepChanged(entries, hash, box.id, boxResults[..j])
        {
          assert boxResults[..j + 1][..j] == boxResults[..j];
          var key := (box.id, HC.EventID(hash, boxResults[j]));
          if key !in entries || boxResults[j].status != entries[key] {
            kept := kept + [boxResults[j]];
          }
        }
        assert boxResults[..|boxResults|] == boxResults;
        remaining := remaining + [BoxResults(box, kept)];
      }
      assert results[..|results|] == results;
    }

    /** updateCache, without writing the file. */
    method UpdateCache(hash: string -> string, box: Box, results: seq<HC.CheckResult>)
      modifies this
      ensures entries == Updated(old(entries), hash, box.id, results)
    {
      ghost var start := entries;
      for i := 0 to |results|
        invariant entries == Updated(start, hash, box.id, results[..i])
      {
        assert results[..i + 1][..i] == results[..i];
        entries := entries[(box.id, HC.EventID(hash, results[i])) := results[i].status];
      }
      assert results[..|results|] == results;
    }
  }

  /** A result is kept iff it changed; what is kept is a subsequence of the input in its order. */
  lemma {:induction false} KeepChangedMembers(store: Store, hash: string -> string, boxId: string, rs: seq<HC.CheckResult>)
    ensures forall r :: r in KeepChanged(store, hash, boxId, rs) <==> r in rs && Changed(store, hash, boxId, r)
    ensures IsSubsequence(KeepChanged(store, hash, boxId, rs), rs)
  {
    if rs != [] {
      var init, last := rs[..|rs| - 1], rs[|rs| - 1];
      KeepChangedMembers(store, hash, boxId, init);
      assert rs == init + [last];
      var keep := Changed(store, hash, boxId, last);
      var k0 := KeepChanged(store, hash, boxId, init);
      assert KeepChanged(store, hash, boxId, rs) == if keep then k0 + [last] else k0;
      SubsequenceExtend(KeepChanged(store, hash, boxId, init), init, last, Changed(store, hash, boxId, last));
    }
  }

  /** Every input box appears in the output, in the same place, holding its changed results. */
  lemma {:induction false} FilterKeepsBoxes(store: Store, hash: string -> string, results: BoxCheckResults)
    ensures |Filter(store, hash, results)| == |results|
    ensures forall k :: 0 <= k < |results| ==>
              Filter(store, hash, results)[k].box == results[k].box &&
              IsSubsequence(Filter(store, hash, results)[k].results, results[k].results) &&
              forall r :: r in Filter(store, hash, results)[k].results <==>
                          r in results[k].results && Changed(store, hash, results[k].box.id, r)
  {
    if results != [] {
      var init := results[..|results| - 1];
      FilterKeepsBoxes(store, hash, init);
      forall k | 0 <= k < |results| ensures Filter(store, hash, results)[k].box == results[k].box &&
              IsSubsequence(Filter(store, hash, results)[k].results, results[k].results) &&
              forall r :: r in Filter(store, hash, results)[k].results <==>
                          r in results[k].results && Changed(store, hash, results[k].box.id, r)
      {
        KeepChangedMembers(store, hash, results[k].box.id, results[k].results);
        if k < |init| {
          assert init[k] == results[k];
        }
      }
    }
  }

  /** Writing one box's results leaves every other key as it was. */
  lemma {:induction false} UpdatedOtherKeys(store: Store, hash: string -> string, boxId: string, rs: seq<HC.CheckResult>,
                                            key: (string, string))
    requires key.0 != boxId || forall r :: r in rs ==> HC.EventID(hash, r) != key.1
    ensures key in Updated(store, hash, boxId, rs) <==> key in store
    ensures key in store ==> Updated(store, hash, boxId, rs)[key] == store[key]
  {
    if rs != [] {
      UpdatedOtherKeys(store, hash, boxId, rs[..|rs| - 1], key);
    }
  }

  /**
   * Every result's key is present afterwards, holding the status of the last
   * result with that EventID.
   */
  lemma {:induction false} UpdatedLastWins(store: Store, hash: string -> string, boxId: string, rs: seq<HC.CheckResult>, i: nat)
    requires i < |rs|
    requires forall j :: i < j < |rs| ==> HC.EventID(hash, rs[j]) != HC.EventID(hash, rs[i])
    ensures (boxId, HC.EventID(hash, rs[i])) in Updated(store, hash, boxId, rs)
    ensures Updated(store, hash, boxId, rs)[(boxId, HC.EventID(hash, rs[i]))] == rs[i].status
  {
    if i < |rs| - 1 {
      var init := rs[..|rs| - 1];
      assert forall j :: i < j < |init| ==> init[j] == rs[j];
      UpdatedLastWins(store, hash, boxId, init, i);
    }
  }

  /** Results with the same EventID agree on their status. */
  predicate Consistent(hash: string -> string, rs: seq<HC.CheckResult>)
  {
    forall i, j :: 0 <= i < |rs| && 0 <= j < |rs| && HC.EventID(hash, rs[i]) == HC.EventID(hash, rs[j]) ==>
      rs[i].status == rs[j].status
  }

  /** Every result of a consistent list finds its own status stored after the update. */
  lemma {:induction false} UpdatedHoldsAll(store: Store, hash: string -> string, boxId: string, rs: seq<HC.CheckResult>)
    requires Consistent(hash, rs)
    ensures forall r :: r in rs ==> !Changed(Updated(store, hash, boxId, rs), hash, boxId, r)
  {
    if rs != [] {
      var init, last := rs[..|rs| - 1], rs[|rs| - 1];
      assert forall i :: 0 <= i < |init| ==> init[i] == rs[i];
      assert Consistent(hash, init);
      UpdatedHoldsAll(store, hash, boxId, init);
      forall r | r in rs ensures !Changed(Updated(store, hash, boxId, rs), hash, boxId, r) {
        if r != last {
          var i :| 0 <= i < |init| && init[i] == r;
          assert rs[i] == r && rs[|rs| - 1] == last;
          assert !Changed(Updated(store, hash, boxId, init), hash, boxId, r);
          if HC.EventID(hash, r) == HC.EventID(hash, last) {
            assert r.status == last.status;
          }
        }
      }
    }
  }

  lemma {:induction false} KeepNoneUnchanged(store: Store, hash: string -> string, boxId: string, rs: seq<HC.CheckResult>)
    requires forall r :: r in rs ==> !Changed(store, hash, boxId, r)
    ensures KeepChanged(store, hash, boxId, rs) == []
  {
    if rs != [] {
      assert forall r :: r in rs[..|rs| - 1] ==> r in rs;
      KeepNoneUnchanged(store, hash, boxId, rs[..|rs| - 1]);
    }
  }

  /**
   * After updateCache(box, rs), filtering the same results of that box keeps
   * none of them, provided results sharing an EventID share their status
   * (pairwise distinct EventIDs are the special case).
   */
  lemma FilterAfterUpdateIsEmpty(store: Store, hash: string -> string, box: Box, rs: seq<HC.CheckResult>)
    requires Consistent(hash, rs)
    ensures Filter(Updated(store, hash, box.id, rs), hash, [BoxResults(box, rs)]) == [BoxResults(box, [])]
  {
    UpdatedHoldsAll(store, hash, box.id, rs);
    KeepNoneUnchanged(Updated(store, hash, box.id, rs), hash, box.id, rs);
  }

  /** Distinct EventIDs make a result list consistent. */
  lemma DistinctIsConsistent(hash: string -> string, rs: seq<HC.CheckResult>)
    requires forall i, j :: 0 <= i < j < |rs| ==> HC.EventID(hash, rs[i]) != HC.EventID(hash, rs[j])
    ensures Consistent(hash, rs)
  {
  }
}
