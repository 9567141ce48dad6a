/** The two persistent tables of the blob sender. */
module BlobSenderDb {
  import opened Wrappers
  import opened BlobTask
  import opened BlobSenderSystem

  /** The table's iterator has yielded `ids` and will still yield `rest`. */
  ghost predicate Iterated(ids: seq<BlobId>, rest: set<BlobId>, all: set<BlobId>) {
    rest <= all && ids + Ascending(rest) == Ascending(all) && forall id :: id in ids ==> id in all
  }

  /** The iterator's next id. */
  method NextId(rest: set<BlobId>) returns (id: BlobId)
    requires rest != {}
    ensures id in rest && id == Least(rest)
  {
    ghost var m := Least(rest);
    id :| id in rest && forall x :: x in rest ==> id <= x;
    assert m <= id <= m;
  }

  lemma IteratesOn(ids: seq<BlobId>, rest: set<BlobId>, all: set<BlobId>)
    requires rest != {} && Iterated(ids, rest, all)
    ensures Iterated(ids + [Least(rest)], rest - {Least(rest)}, all)
  {
    var m := Least(rest);
    assert Ascending(rest) == [m] + Ascending(rest - {m});
    assert ids + ([m] + Ascending(rest - {m})) == (ids + [m]) + Ascending(rest - {m});
  }

  lemma OneMoreRequest(ids: seq<BlobId>, id: BlobId, d: Disk)
    requires id in d.blobs && forall x :: x in ids ==> x in d.blobs
    ensures Requests(ids + [id], d) ==
            Requests(ids, d) + [Request(d.blobs[id], id, if id in d.infos then d.infos[id] else FRESH)]
  {
  }

  predicate Lists(rs: seq<Request>, id: BlobId) { exists i :: 0 <= i < |rs| && rs[i].id == id }

  /** Every blob once, in ascending order of the ids, with its saved status or to be submitted afresh. */
  ghost predicate IsListing(rs: seq<Request>, blobs: map<BlobId, BlobToSend>, infos: map<BlobId, ExecutionStatus>) {
    && (forall i, j :: 0 <= i < j < |rs| ==> rs[i].id < rs[j].id)
    && (forall id :: id in blobs <==> Lists(rs, id))
    && (forall i :: 0 <= i < |rs| ==>
          && rs[i].id in blobs && rs[i].blob == blobs[rs[i].id]
          && rs[i].status == if rs[i].id in infos then infos[rs[i].id] else FRESH)
  }

  lemma GetAllLists(d: Disk)
    ensures IsListing(BlobSenderSystem.GetAll(d), d.blobs, d.infos)
  {
    var ids, rs := Ascending(d.blobs.Keys), BlobSenderSystem.GetAll(d);
    forall i, j | 0 <= i < j < |rs| ensures rs[i].id < rs[j].id {
      AscendingIsSorted(d.blobs.Keys, i, j);
    }
    forall i | 0 <= i < |rs| ensures rs[i].id == ids[i] && ids[i] in d.blobs {}
    forall id | id in d.blobs ensures Lists(rs, id) {
      var i :| 0 <= i < |ids| && ids[i] == id;
      assert rs[i].id == id;
    }
  }

  class Db {
    var blobs: map<BlobId, BlobToSend>
    var infos: map<BlobId, ExecutionStatus>

    constructor ()
      ensures View() == Disk(map[], map[])
    {
      blobs, infos := map[], map[];
    }

    function View(): Disk
      reads this
    {
      Disk(blobs, infos)
    }

    /** Every blob in the order of its id, resumed from its saved state or to be submitted afresh. */
    method GetAll() returns (requests: seq<Request>)
      ensures requests == BlobSenderSystem.GetAll(View())
      ensures IsListing(requests, blobs, infos)
    {
      requests := [];
      var rest := blobs.Keys;
      ghost var ids: seq<BlobId> := [];
      while rest != {}
        invariant Iterated(ids, rest, blobs.Keys) && requests == Requests(ids, View())
        decreases |rest|
      {
        var id := NextId(rest);
        IteratesOn(ids, rest, blobs.Keys);
        OneMoreRequest(ids, id, View());
        requests := requests + [Request(blobs[id], id, if id in infos then infos[id] else FRESH)];
        ids := ids + [id];
        rest := rest - {id};
      }
      assert ids == Ascending(blobs.Keys);
      GetAllLists(View());
    }

    method Push(blob: BlobToSend, id: BlobId)
      modifies this
      ensures View() == old(View()).(blobs := old(blobs)[id := blob])
    {
      blobs := blobs[id := blob];
    }

    method SetState(id: BlobId, status: ExecutionStatus)
      modifies this
      ensures View() == OnDisk(old(View()), id, SaveState(status))
      ensures blobs == old(blobs) && infos == old(infos)[id := status]
    {
      infos := infos[id := status];
    }

    method Remove(id: BlobId)
      modifies this
      ensures View() == OnDisk(old(View()), id, RemoveBlob)
      ensures blobs == old(blobs) - {id} && infos == old(infos) - {id}
    {
      // One atomic batch with both deletions.
      blobs, infos := blobs - {id}, infos - {id};
    }
  }
}
