/** What the ownership layer guarantees, stated over the functions that the
    ProductService methods are proved to agree with. */
module ServiceProperties {
  import opened Wrappers
  import opened Models
  import opened Json
  import opened FileSystem
  import opened Errors
  import opened Repository
  import opened RepositoryProperties
  import opened Mappers
  import opened Services

  // ---------------------------------------------------------------- save

  /** After a successful SaveProducts, each requested id reads back as the
      request, owned by the caller and created at the call's time (the last
      request wins when an id repeats). */
  lemma SaveReadsBack(fs: FsState, dir: string, reqs: seq<ProductRequest>, sellerID: string, now: string, j: nat)
    requires RunBatch(fs, dir, Listings(reqs, sellerID, now), Create).status == Success
    requires j < |reqs|
    requires forall i :: j < i < |reqs| ==> reqs[i].id != reqs[j].id
    requires FileName(reqs[j].id) !in fs.readFaults
    ensures var after := RunBatch(fs, dir, Listings(reqs, sellerID, now), Create).fs;
      match Lookup(after, dir, reqs[j].id)
      case Ok(p) => RequestOf(p) == reqs[j] && p.sellerId == sellerID && p.createdAt == now
      case Err(_) => false
  {
    var ps := Listings(reqs, sellerID, now);
    assert forall i :: j < i < |ps| ==> ps[i].id == reqs[i].id;
    ReadBackAfterBatch(fs, dir, ps, Create, j);
  }

  /** A SaveProducts request that repeats an id is refused, and no record of
      the request from its second occurrence on is written, unless examining
      that record's file fails. */
  lemma SaveRefusesRepeatedId(fs: FsState, dir: string, reqs: seq<ProductRequest>, sellerID: string, now: string, i: nat, j: nat)
    requires i < j < |reqs| && reqs[i].id == reqs[j].id
    requires FileName(reqs[j].id) !in fs.statFaults
    ensures var out := RunBatch(fs, dir, Listings(reqs, sellerID, now), Create);
      out.status.Failure? && out.written <= j
  {
    SaveRefusesRepeat(fs, dir, Listings(reqs, sellerID, now), i, j);
  }

  // ---------------------------------------------------------------- update

  /** The UpdateProducts loop goes through exactly when the caller owns
      every requested record, and then gives each request the stored
      record's creation time and seller. */
  lemma PlanUpdateMeaning(fs: FsState, dir: string, reqs: seq<ProductRequest>, sellerID: string)
    ensures var r := PlanUpdate(fs, dir, reqs, sellerID);
      && (r.Ok? <==> forall i :: 0 <= i < |reqs| ==> Owns(fs, dir, reqs[i].id, sellerID))
      && (r.Ok? ==> |r.value| == |reqs| && forall i :: 0 <= i < |reqs| ==>
            && RequestOf(r.value[i]) == reqs[i]
            && r.value[i].sellerId == sellerID
            && r.value[i].createdAt == Lookup(fs, dir, reqs[i].id).value.createdAt)
  {
    var f := Reviser(fs, dir, sellerID);
    CollectAllMeaning(reqs, f);
    assert forall i :: 0 <= i < |reqs| ==> (f(reqs[i]).Ok? <==> Owns(fs, dir, reqs[i].id, sellerID));
  }

  /** When the UpdateProducts loop stops, it stops at the first record that
      cannot be read or is not the caller's. */
  lemma PlanUpdateStops(fs: FsState, dir: string, reqs: seq<ProductRequest>, sellerID: string)
    ensures var r := PlanUpdate(fs, dir, reqs, sellerID);
      r.Err? ==> exists k :: 0 <= k < |reqs| && !Owns(fs, dir, reqs[k].id, sellerID) &&
                             forall j :: 0 <= j < k ==> Owns(fs, dir, reqs[j].id, sellerID)
  {
    var f := Reviser(fs, dir, sellerID);
    CollectAllMeaning(reqs, f);
    assert forall i :: 0 <= i < |reqs| ==> (f(reqs[i]).Ok? <==> Owns(fs, dir, reqs[i].id, sellerID));
  }

  /** The record for `id` can be read and belongs to `sellerID`. */
  predicate Owns(fs: FsState, dir: string, id: int, sellerID: string)
  {
    Lookup(fs, dir, id).Ok? && Lookup(fs, dir, id).value.sellerId == sellerID
  }

  /** A successful UpdateProducts only ever touched records the caller owned. */
  lemma UpdateSuccessMeansOwned(fs: FsState, dir: string, reqs: seq<ProductRequest>, sellerID: string)
    requires UpdateAll(fs, dir, reqs, sellerID).1 == Returned(Success)
    ensures forall i :: 0 <= i < |reqs| ==> Owns(fs, dir, reqs[i].id, sellerID)
  {
    PlanUpdateMeaning(fs, dir, reqs, sellerID);
  }

  /** UpdateProducts never creates a record: the directory afterwards has
      the same entries, whatever the outcome. */
  lemma UpdateNeverCreates(fs: FsState, dir: string, reqs: seq<ProductRequest>, sellerID: string)
    ensures UpdateAll(fs, dir, reqs, sellerID).0.entries.Keys == fs.entries.Keys
  {
    var plan := PlanUpdate(fs, dir, reqs, sellerID);
    if plan.Ok? {
      PlanUpdateMeaning(fs, dir, reqs, sellerID);
      var b := plan.value;
      forall i | 0 <= i < |b|
        ensures FileName(b[i].id) in fs.entries
      {
        LookupMeaning(fs, dir, reqs[i].id);
      }
      BatchKeysWithin(fs, dir, b, Overwrite);
    }
  }

  /** The first request whose record cannot be read makes UpdateProducts
      panic, and the record the caller meant to create is not written. */
  lemma UpdateOfMissingPanics(fs: FsState, dir: string, reqs: seq<ProductRequest>, sellerID: string, k: nat)
    requires k < |reqs| && Lookup(fs, dir, reqs[k].id).Err?
    requires forall j :: 0 <= j < k ==> Owns(fs, dir, reqs[j].id, sellerID)
    ensures UpdateAll(fs, dir, reqs, sellerID) == (fs, Panicked)
  {
    var f := Reviser(fs, dir, sellerID);
    assert forall j :: 0 <= j < k ==> f(reqs[j]).Ok?;
    CollectAllFirstError(reqs, f, k);
  }

  /** The first request for a record of another seller ends UpdateProducts
      with "unauthorized" before anything is written. */
  lemma UpdateOfOthersRefused(fs: FsState, dir: string, reqs: seq<ProductRequest>, sellerID: string, k: nat)
    requires k < |reqs| && Lookup(fs, dir, reqs[k].id).Ok?
    requires Lookup(fs, dir, reqs[k].id).value.sellerId != sellerID
    requires forall j :: 0 <= j < k ==> Owns(fs, dir, reqs[j].id, sellerID)
    ensures UpdateAll(fs, dir, reqs, sellerID) == (fs, Returned(Failure(Unauthorized)))
  {
    var f := Reviser(fs, dir, sellerID);
    assert forall j :: 0 <= j < k ==> f(reqs[j]).Ok?;
    CollectAllFirstError(reqs, f, k);
  }

  /** After a successful UpdateProducts each requested id reads back as the
      request, with the creation time and seller it had before. */
  lemma UpdateReadsBack(fs: FsState, dir: string, reqs: seq<ProductRequest>, sellerID: string, j: nat)
    requires UpdateAll(fs, dir, reqs, sellerID).1 == Returned(Success)
    requires j < |reqs|
    requires forall i :: j < i < |reqs| ==> reqs[i].id != reqs[j].id
    ensures Lookup(fs, dir, reqs[j].id).Ok?
    ensures var before := Lookup(fs, dir, reqs[j].id).value;
      match Lookup(UpdateAll(fs, dir, reqs, sellerID).0, dir, reqs[j].id)
      case Ok(p) => RequestOf(p) == reqs[j] && p.sellerId == before.sellerId == sellerID && p.createdAt == before.createdAt
      case Err(_) => false
  {
    PlanUpdateMeaning(fs, dir, reqs, sellerID);
    var b := PlanUpdate(fs, dir, reqs, sellerID).value;
    assert forall i :: j < i < |b| ==> b[i].id == reqs[i].id;
    ReadBackAfterBatch(fs, dir, b, Overwrite, j);
  }

  /** UpdateProducts leaves the records it was not asked about as they were. */
  lemma UpdateLeavesOthers(fs: FsState, dir: string, reqs: seq<ProductRequest>, sellerID: string, id: int)
    requires forall i :: 0 <= i < |reqs| ==> reqs[i].id != id
    ensures Lookup(UpdateAll(fs, dir, reqs, sellerID).0, dir, id) == Lookup(fs, dir, id)
  {
    var plan := PlanUpdate(fs, dir, reqs, sellerID);
    if plan.Ok? {
      PlanUpdateMeaning(fs, dir, reqs, sellerID);
      var b := plan.value;
      assert forall i :: 0 <= i < |b| ==> b[i].id == reqs[i].id;
      BatchLeavesOthers(fs, dir, b, Overwrite, id);
    }
  }

  /** The store's error for a missing record is the one the service's
      "does not exist" test recognises. */
  lemma MissingRecordRecognised(fs: FsState, dir: string, id: int)
    requires FileName(id) !in fs.readFaults && !Present(fs, FileName(id))
    ensures Lookup(fs, dir, id).Err? && LooksNotFound(Lookup(fs, dir, id).error)
  {
    LookupMeaning(fs, dir, id);
    NotFoundIsRecognised(id);
  }

  // ---------------------------------------------------------------- delete

  /** DeleteProductByID: the store's not-found error when the record is
      missing; "unauthorized" exactly when another seller owns it; for the
      owner, the removal's error when removing the file fails, and
      otherwise that record gone and every other record as it was. */
  lemma DeleteAsOwnerMeaning(fs: FsState, dir: string, id: int, sellerID: string)
    ensures var r := DeleteAsOwner(fs, dir, id, sellerID);
      && (r == Err(NotFound(id)) <==> FileName(id) !in fs.readFaults && !Present(fs, FileName(id)))
      && (r == Err(Unauthorized) <==> Lookup(fs, dir, id).Ok? && Lookup(fs, dir, id).value.sellerId != sellerID)
      && (Owns(fs, dir, id, sellerID) && FileName(id) !in fs.removeFaults ==> r.Ok?)
      && (Owns(fs, dir, id, sellerID) && FileName(id) in fs.removeFaults ==>
            r == Err(DeleteFailure(id, FilePath(dir, FileName(id)), PathError("remove", Failed(fs.removeFaults[FileName(id)])))))
      && (r.Ok? ==>
            && Owns(fs, dir, id, sellerID)
            && Lookup(r.value, dir, id) == Err(NotFound(id))
            && forall other :: other != id ==> Lookup(r.value, dir, other) == Lookup(fs, dir, other))
  {
    LookupMeaning(fs, dir, id);
    DeleteOneMeaning(fs, dir, id);
    var r := DeleteAsOwner(fs, dir, id, sellerID);
    if r.Ok? {
      forall other | other != id
        ensures Lookup(r.value, dir, other) == Lookup(fs, dir, other)
      {
        DeleteLeavesOthers(fs, dir, id, other);
      }
    }
  }
}
