/** The encoding/json codec for one product, kept abstract: a file's bytes are
    represented by what `json.Unmarshal` makes of them, either a product or a
    decoding error. No JSON grammar is modelled. */
module Json {
  import opened Wrappers
  import opened Models

  datatype Contents =
    | Document(product: Product)      // bytes that decode to this product
    | Malformed(syntaxError: string)  // bytes that json.Unmarshal refuses

  /** `strconv.FormatFloat(f, 'g', -1, 32)` for a value that is not finite. */
  function NonFiniteText(f: Float32): string
    requires !IsFinite(f)
  {
    if f.bits & 0x7F_FFFF != 0 then "NaN"
    else if f.bits >> 31 == 1 then "-Inf"
    else "+Inf"
  }

  function UnsupportedValue(f: Float32): string
    requires !IsFinite(f)
  {
    "json: unsupported value: " + NonFiniteText(f)
  }

  /** `json.Unmarshal` into a product. */
  function Unmarshal(c: Contents): Result<Product, string>
  {
    match c
    case Document(p) => Ok(p)
    case Malformed(e) => Err(e)
  }

  /** `json.MarshalIndent` of a product. encoding/json refuses NaN and the
      infinities; price is encoded before rating. Whatever it writes decodes
      back to the same product. */
  function Marshal(p: Product): (r: Result<Contents, string>)
    ensures r.Ok? <==> IsFinite(p.price) && IsFinite(p.rating)
    ensures r.Ok? ==> Unmarshal(r.value) == Ok(p)
  {
    if !IsFinite(p.price) then Err(UnsupportedValue(p.price))
    else if !IsFinite(p.rating) then Err(UnsupportedValue(p.rating))
    else Ok(Document(p))
  }
}
