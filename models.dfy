/** The stored product record and the two transfer shapes around it. */
module Models {

  /** A Go `float32`, kept as its IEEE 754 bit pattern. No arithmetic is done
      on prices or ratings; they are only copied and compared. */
  datatype Float32 = Float32(bits: bv32)

  /** False for NaN and the two infinities: the exponent bits are all ones. */
  predicate IsFinite(f: Float32)
  {
    (f.bits >> 23) & 0xFF != 0xFF
  }

  /** The record kept in `<storagePath>/<id>.json` (models.Product). */
  datatype Product = Product(
    id: int,
    name: string,
    description: string,
    price: Float32,
    brand: string,
    sellerId: string,
    imageUrl: string,
    rating: Float32,
    createdAt: string,
    specifications: map<string, string>)

  /** What a seller submits (dto.ProductRequest): no owner, no creation time. */
  datatype ProductRequest = ProductRequest(
    id: int,
    name: string,
    description: string,
    price: Float32,
    brand: string,
    imageUrl: string,
    rating: Float32,
    specifications: map<string, string>)

  /** What a client is shown (dto.ProductResponse). */
  datatype ProductResponse = ProductResponse(
    id: int,
    name: string,
    description: string,
    price: Float32,
    brand: string,
    imageUrl: string,
    rating: Float32,
    specifications: map<string, string>,
    sellerId: string)
}
