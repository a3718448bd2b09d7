/** The ownership layer (services.ProductService): stamps new records with
    their seller and creation time, lets only the owning seller update or
    delete a record, and passes reads through as responses. The functions
    say what each operation does to the store's directory; the class runs
    the operations as the service does and is proved to agree with them. */
module Services {
  import opened Wrappers
  import opened Models
  import opened FileSystem
  import opened Errors
  import opened Repository
  import opened Mappers

  /** How UpdateProducts ends: it returns an error value, or it dereferences
      the missing record of a failed lookup and panics. */
  datatype UpdateOutcome = Returned(status: Status) | Panicked

  /** Why UpdateProducts stops before writing anything. */
  datatype Refusal =
    | LookupFailed(error: Error)  // the record could not be read: the service panics
    | NotOwner                    // the record belongs to another seller

  /** A request turned into a new record of `sellerID`, created at `now`. */
  function NewListing(req: ProductRequest, sellerID: string, now: string): (p: Product)
    ensures RequestOf(p) == req && p.sellerId == sellerID && p.createdAt == now
  {
    ProductFromRequest(req).(createdAt := now, sellerId := sellerID)
  }

  /** The batch SaveProducts hands to the store: every request stamped with
      the caller and with one shared creation time, in request order. */
  function Listings(reqs: seq<ProductRequest>, sellerID: string, now: string): (ps: seq<Product>)
    ensures |ps| == |reqs|
    ensures forall i :: 0 <= i < |reqs| ==> ps[i] == NewListing(reqs[i], sellerID, now)
  {
    seq(|reqs|, i requires 0 <= i < |reqs| => NewListing(reqs[i], sellerID, now))
  }

  /** One iteration of the UpdateProducts loop: the request's fields with the
      stored record's creation time and seller, when the caller owns it. */
  function Revise(fs: FsState, dir: string, sellerID: string, req: ProductRequest): Result<Product, Refusal>
  {
    var p := ProductFromRequest(req);
    match Lookup(fs, dir, p.id)
    case Err(e) => Err(LookupFailed(e))
    case Ok(existing) =>
      if existing.sellerId != sellerID then Err(NotOwner)
      else Ok(p.(createdAt := existing.createdAt, sellerId := existing.sellerId))
  }

  function Reviser(fs: FsState, dir: string, sellerID: string): ProductRequest -> Result<Product, Refusal>
  {
    req => Revise(fs, dir, sellerID, req)
  }

  /** The loop of UpdateProducts: the batch to write, or the first refusal. */
  function PlanUpdate(fs: FsState, dir: string, reqs: seq<ProductRequest>, sellerID: string): Result<seq<Product>, Refusal>
  {
    CollectAll(reqs, Reviser(fs, dir, sellerID))
  }

  /** UpdateProducts: the directory afterwards and how the call ends. */
  function UpdateAll(fs: FsState, dir: string, reqs: seq<ProductRequest>, sellerID: string): (FsState, UpdateOutcome)
  {
    match PlanUpdate(fs, dir, reqs, sellerID)
    case Err(LookupFailed(_)) => (fs, Panicked)
    case Err(NotOwner) => (fs, Returned(Failure(Unauthorized)))
    case Ok(batch) =>
      var out := RunBatch(fs, dir, batch, Overwrite);
      (out.fs, Returned(out.status))
  }

  /** DeleteProductByID: the directory afterwards, or the error. */
  function DeleteAsOwner(fs: FsState, dir: string, id: int, sellerID: string): Result<FsState, Error>
  {
    match Lookup(fs, dir, id)
    case Err(e) => Err(e)
    case Ok(p) => if p.sellerId != sellerID then Err(Unauthorized) else DeleteOne(fs, dir, id)
  }

  /** `r` is `src` shown to a client: the same error, or one response per
      record, in the same order. */
  predicate Mirrors(r: Result<seq<ProductResponse>, Error>, src: Result<seq<Product>, Error>)
  {
    match src
    case Err(e) => r == Err(e)
    case Ok(ps) => r.Ok? && |r.value| == |ps| && forall i :: 0 <= i < |ps| ==> r.value[i] == ProductToResponse(ps[i])
  }

  class ProductService {
    const repo: ProductRepoJson

    /** NewProductService. */
    constructor (r: ProductRepoJson)
      ensures repo == r
    {
      repo := r;
    }

    /** `listing` is what `os.ReadDir` returns for the store's directory. */
    method LoadProducts(listing: seq<string>) returns (r: Result<seq<ProductResponse>, Error>)
      requires IsListing(listing, repo.entries)
      ensures Mirrors(r, LoadAll(repo.Fs(), repo.storagePath, listing))
    {
      var products := repo.LoadProducts(listing);
      if products.Err? {
        return Err(products.error);
      }
      var responses := ProductsToResponses(products.value);
      return Ok(responses);
    }

    /** `now` is the time the call reads from the clock. */
    method SaveProducts(req: seq<ProductRequest>, sellerID: string, now: string) returns (status: Status)
      modifies repo`entries
      ensures var out := RunBatch(old(repo.Fs()), repo.storagePath, Listings(req, sellerID, now), Create);
              repo.Fs() == out.fs && status == out.status
    {
      var productsToSave: seq<Product> := [];
      var createdAt := now;
      for i := 0 to |req|
        invariant |productsToSave| == i
        invariant forall j :: 0 <= j < i ==> productsToSave[j] == NewListing(req[j], sellerID, now)
      {
        var product := ProductFromRequest(req[i]);
        product := product.(createdAt := createdAt);
        product := product.(sellerId := sellerID);
        productsToSave := productsToSave + [product];
      }
      assert productsToSave == Listings(req, sellerID, now);
      status := repo.SaveProducts(productsToSave);
    }

    /** `now` is the time the not-found branch reads from the clock; that
        branch's stamps are never used, since the dereference of the missing
        record that follows panics first. */
    method UpdateProducts(req: seq<ProductRequest>, sellerID: string, now: string) returns (outcome: UpdateOutcome)
      modifies repo`entries
      ensures (repo.Fs(), outcome) == UpdateAll(old(repo.Fs()), repo.storagePath, req, sellerID)
    {
      var fs := repo.Fs();
      var dir := repo.storagePath;
      var productsToUpdate: seq<Product> := [];
      var productsRequest := ProductsFromRequests(req);
      assert req[0..] == req;
      PrependNothing(PlanUpdate(fs, dir, req, sellerID));
      for i := 0 to |productsRequest|
        invariant repo.Fs() == fs
        invariant PlanUpdate(fs, dir, req, sellerID) == Prepend(productsToUpdate, PlanUpdate(fs, dir, req[i..], sellerID))
      {
        assert req[i..][1..] == req[i + 1..];
        var product := productsRequest[i];
        var existingProduct := repo.GetProductByID(product.id);
        if existingProduct.Err? {
          if LooksNotFound(existingProduct.error) {
            product := product.(createdAt := now, sellerId := sellerID);
          }
          // the record is nil here: reading its fields panics
          return Panicked;
        } else if existingProduct.value.sellerId != sellerID {
          return Returned(Failure(Unauthorized));
        }
        var existing := existingProduct.value;
        product := product.(createdAt := existing.createdAt);
        product := product.(sellerId := existing.sellerId);
        assert Reviser(fs, dir, sellerID)(req[i]) == Ok(product);
        PrependAppend(productsToUpdate, product, PlanUpdate(fs, dir, req[i + 1..], sellerID));
        productsToUpdate := productsToUpdate + [product];
      }
      assert productsToUpdate + [] == productsToUpdate;
      var status := repo.UpdateProducts(productsToUpdate);
      return Returned(status);
    }

    method CompareProducts(ids: seq<int>) returns (r: Result<seq<ProductResponse>, Error>)
      ensures Mirrors(r, CompareAll(repo.Fs(), repo.storagePath, ids))
    {
      var products := repo.CompareProducts(ids);
      if products.Err? {
        return Err(products.error);
      }
      var responses := ProductsToResponses(products.value);
      return Ok(responses);
    }

    method GetProductByID(id: int) returns (r: Result<ProductResponse, Error>)
      ensures match Lookup(repo.Fs(), repo.storagePath, id)
              case Err(e) => r == Err(e)
              case Ok(p) => r == Ok(ProductToResponse(p))
    {
      var product := repo.GetProductByID(id);
      if product.Err? {
        return Err(product.error);
      }
      var response := ProductToResponse(product.value);
      return Ok(response);
    }

    method DeleteProductByID(id: int, sellerID: string) returns (status: Status)
      modifies repo`entries
      ensures match DeleteAsOwner(old(repo.Fs()), repo.storagePath, id, sellerID)
              case Ok(next) => repo.Fs() == next && status == Success
              case Err(e) => repo.Fs() == old(repo.Fs()) && status == Failure(e)
    {
      var product := repo.GetProductByID(id);
      if product.Err? {
        return Failure(product.error);
      }
      if product.value.sellerId != sellerID {
        return Failure(Unauthorized);
      }
      status := repo.DeleteByID(id);
    }
  }
}
