/** The snapshot store: a map from uuids, listed in no particular order. */
module Stores {
  import opened Text
  import opened SbatchSnapshots

  type Contents = map<Uuid, Snapshot>

  /** Every snapshot is kept under its own uuid. */
  predicate Keyed(contents: Contents) {
    forall u :: u in contents ==> contents[u].uuid == u
  }

  predicate DistinctUuids(snaps: seq<Snapshot>) {
    forall i, j :: 0 <= i < j < |snaps| ==> snaps[i].uuid != snaps[j].uuid
  }

  /** Every snapshot of the store once, in some order. */
  ghost predicate IsListing(contents: Contents, listing: seq<Snapshot>) {
    && DistinctUuids(listing)
    && forall x :: x in listing <==> x.uuid in contents && contents[x.uuid] == x
  }

  /** The store after a sequence of saves. */
  function SaveAll(contents: Contents, snaps: seq<Snapshot>): Contents {
    if snaps == [] then contents
    else
      var last := snaps[|snaps| - 1];
      SaveAll(contents, snaps[..|snaps| - 1])[last.uuid := last]
  }

  lemma SaveAllMore(contents: Contents, snaps: seq<Snapshot>, n: nat)
    requires n < |snaps|
    ensures SaveAll(contents, snaps[..n + 1]) == SaveAll(contents, snaps[..n])[snaps[n].uuid := snaps[n]]
  {
    assert snaps[..n + 1][..n] == snaps[..n];
  }

  /** `find_all_by_jobid` on a listing. */
  function FindAll(listing: seq<Snapshot>, jobid: U64): seq<Snapshot> {
    if listing == [] then []
    else (if listing[0].jobid == jobid then [listing[0]] else []) + FindAll(listing[1..], jobid)
  }

  lemma {:induction false} FindAllFinds(listing: seq<Snapshot>, jobid: U64)
    ensures forall x :: x in FindAll(listing, jobid) <==> x in listing && x.jobid == jobid
    ensures DistinctUuids(listing) ==> DistinctUuids(FindAll(listing, jobid))
    decreases |listing|
  {
    if listing != [] {
      FindAllFinds(listing[1..], jobid);
      assert listing == [listing[0]] + listing[1..];
      var found := FindAll(listing[1..], jobid);
      if DistinctUuids(listing) && listing[0].jobid == jobid {
        forall j | 0 <= j < |found|
          ensures listing[0].uuid != found[j].uuid
        {
          assert found[j] in listing[1..];
        }
      }
    }
  }

  /** What is in the store after snapshots with distinct uuids were saved: all of them, */
  lemma {:induction false} SaveAllHolds(contents: Contents, snaps: seq<Snapshot>)
    requires DistinctUuids(snaps)
    ensures var after := SaveAll(contents, snaps);
            forall x :: x in snaps ==> x.uuid in after && after[x.uuid] == x
    decreases |snaps|
  {
    if snaps != [] {
      var init, last := snaps[..|snaps| - 1], snaps[|snaps| - 1];
      SaveAllHolds(contents, init);
      forall x | x in snaps && x != last
        ensures x in init && x.uuid != last.uuid
      {
        var k :| 0 <= k < |snaps| && snaps[k] == x;
        assert init[k] == x;
      }
    }
  }

  /** and otherwise what was there before. */
  lemma {:induction false} SaveAllKeepsTheRest(contents: Contents, snaps: seq<Snapshot>, u: Uuid)
    requires forall x :: x in snaps ==> x.uuid != u
    ensures var after := SaveAll(contents, snaps);
            (u in after <==> u in contents) && (u in contents ==> after[u] == contents[u])
    decreases |snaps|
  {
    if snaps != [] {
      var init, last := snaps[..|snaps| - 1], snaps[|snaps| - 1];
      assert last in snaps;
      assert forall x :: x in init ==> x in snaps;
      SaveAllKeepsTheRest(contents, init, u);
    }
  }

  lemma {:induction false} DistinctCounts(snaps: seq<Snapshot>, x: Snapshot)
    requires DistinctUuids(snaps)
    ensures multiset(snaps)[x] == if x in snaps then 1 else 0
    decreases |snaps|
  {
    if snaps != [] {
      var init, last := snaps[..|snaps| - 1], snaps[|snaps| - 1];
      assert snaps == init + [last];
      DistinctCounts(init, x);
    }
  }

  /** Without repeated uuids, the same elements are the same snapshots. */
  lemma SameElementsArePermutations(a: seq<Snapshot>, b: seq<Snapshot>)
    requires DistinctUuids(a) && DistinctUuids(b)
    requires forall x :: x in a <==> x in b
    ensures multiset(a) == multiset(b)
  {
    forall x
      ensures multiset(a)[x] == multiset(b)[x]
    {
      DistinctCounts(a, x);
      DistinctCounts(b, x);
    }
  }

  /** A store that keeps one snapshot per uuid. Which saves succeed is arbitrary; a
      save that fails changes nothing. */
  class SnapshotStore {
    const accepts: nat -> bool
    var saves: nat
    var contents: map<Uuid, Snapshot>

    constructor (accepts: nat -> bool)
      ensures this.accepts == accepts && contents == map[]
    {
      this.accepts, saves, contents := accepts, 0, map[];
    }

    method Save(snap: Snapshot) returns (ok: bool)
      modifies this
      ensures ok == accepts(old(saves)) && saves == old(saves) + 1
      ensures contents == if ok then old(contents)[snap.uuid := snap] else old(contents)
    {
      ok := accepts(saves);
      saves := saves + 1;
      if ok {
        contents := contents[snap.uuid := snap];
      }
    }

    /** All snapshots, in no particular order. */
    method List() returns (listing: seq<Snapshot>)
      requires Keyed(contents)
      ensures IsListing(contents, listing)
    {
      listing := [];
      var left := contents.Keys;
      while left != {}
        invariant left <= contents.Keys
        invariant forall k :: 0 <= k < |listing| ==>
                    listing[k].uuid in contents && listing[k].uuid !in left && contents[listing[k].uuid] == listing[k]
        invariant forall u :: u in contents && u !in left ==> contents[u] in listing
        invariant DistinctUuids(listing)
        decreases |left|
      {
        var u :| u in left;
        listing := listing + [contents[u]];
        left := left - {u};
      }
    }
  }
}
