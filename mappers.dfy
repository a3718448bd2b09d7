/** Field copies between the request, the stored record and the response
    (services/product_mappers.go). */
module Mappers {
  import opened Models

  /** The request fields of a stored record; the seller and the creation time
      are not part of a request. */
  function RequestOf(p: Product): ProductRequest
  {
    ProductRequest(p.id, p.name, p.description, p.price, p.brand, p.imageUrl, p.rating, p.specifications)
  }

  /** Carries every request field over and leaves the two fields the service
      stamps empty. */
  function ProductFromRequest(req: ProductRequest): (p: Product)
    ensures RequestOf(p) == req
    ensures p.sellerId == "" && p.createdAt == ""
  {
    Product(
      id := req.id,
      name := req.name,
      description := req.description,
      price := req.price,
      brand := req.brand,
      sellerId := "",
      imageUrl := req.imageUrl,
      rating := req.rating,
      createdAt := "",
      specifications := req.specifications)
  }

  /** The fields a response shows, which exclude the description, the
      specifications and the creation time. */
  predicate SameListing(p: Product, q: Product)
  {
    && p.id == q.id && p.name == q.name && p.price == q.price && p.brand == q.brand
    && p.imageUrl == q.imageUrl && p.rating == q.rating && p.sellerId == q.sellerId
  }

  /** A response shows the record's listing fields, its seller included;
      the description and the specifications are never shown. */
  function ProductToResponse(p: Product): (r: ProductResponse)
    ensures r.id == p.id && r.name == p.name && r.price == p.price && r.brand == p.brand
    ensures r.imageUrl == p.imageUrl && r.rating == p.rating && r.sellerId == p.sellerId
    ensures r.description == "" && r.specifications == map[]
  {
    ProductResponse(
      id := p.id,
      name := p.name,
      description := "",
      price := p.price,
      brand := p.brand,
      imageUrl := p.imageUrl,
      rating := p.rating,
      specifications := map[],
      sellerId := p.sellerId)
  }

  method ProductsFromRequests(requests: seq<ProductRequest>) returns (products: seq<Product>)
    ensures |products| == |requests|
    ensures forall i :: 0 <= i < |requests| ==> products[i] == ProductFromRequest(requests[i])
  {
    products := [];
    for i := 0 to |requests|
      invariant |products| == i
      invariant forall j :: 0 <= j < i ==> products[j] == ProductFromRequest(requests[j])
    {
      products := products + [ProductFromRequest(requests[i])];
    }
  }

  method ProductsToResponses(products: seq<Product>) returns (responses: seq<ProductResponse>)
    ensures |responses| == |products|
    ensures forall i :: 0 <= i < |products| ==> responses[i] == ProductToResponse(products[i])
  {
    responses := [];
    for i := 0 to |products|
      invariant |responses| == i
      invariant forall j :: 0 <= j < i ==> responses[j] == ProductToResponse(products[j])
    {
      responses := responses + [ProductToResponse(products[i])];
    }
  }

  /** Two records give the same response exactly when they agree on the
      fields a response shows. */
  lemma ResponseShowsListing(p: Product, q: Product)
    ensures ProductToResponse(p) == ProductToResponse(q) <==> SameListing(p, q)
  {
  }

  /** A request shown straight back keeps its listing fields and has no owner. */
  lemma ResponseOfRequest(req: ProductRequest)
    ensures var r := ProductToResponse(ProductFromRequest(req));
      && r.id == req.id && r.name == req.name && r.price == req.price
      && r.brand == req.brand && r.imageUrl == req.imageUrl && r.rating == req.rating
      && r.sellerId == ""
  {
  }
}
