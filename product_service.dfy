/** The product service's guards: read-only checks over the stored products that
    either return normally or throw an error tagged with an HTTP status. They take
    the stored products as a value, so none of them can change a record. */
module ProductService {
  import opened Results
  import opened Products
  import opened Http

  /** The first stored product that satisfies `matches`, in storage order: the
      database's single-document lookup for one query. */
  function FindFirst(records: seq<Product>, matches: Product -> bool): (r: Option<Product>)
    ensures r.Some? ==> r.value in records && matches(r.value)
    ensures r.None? <==> forall i :: 0 <= i < |records| ==> !matches(records[i])
  {
    if records == [] then None
    else if matches(records[0]) then Some(records[0])
    else FindFirst(records[1..], matches)
  }

  /** The query `{ _id: id }`. */
  function HasId(id: string): Product -> bool
  {
    (p: Product) => p.id == id
  }

  /** The query `{ name }`: exact equality of the name. */
  function HasName(name: string): Product -> bool
  {
    (p: Product) => p.name == name
  }

  /** The stored product with the given id. */
  function FindById(records: seq<Product>, id: string): (r: Option<Product>)
    ensures r.Some? ==> r.value in records && r.value.id == id
    ensures r.None? <==> forall i :: 0 <= i < |records| ==> records[i].id != id
  {
    FindFirst(records, HasId(id))
  }

  /** The first stored product with exactly the given name. */
  function FindByName(records: seq<Product>, name: string): (r: Option<Product>)
    ensures r.Some? ==> r.value in records && r.value.name == name
    ensures r.None? <==> forall i :: 0 <= i < |records| ==> records[i].name != name
  {
    FindFirst(records, HasName(name))
  }

  /** Throws 404 when the id is not a well-formed identifier. */
  function ValidateProductId(isValidId: string -> bool, productId: string): (r: Outcome<AppError>)
    ensures r.Pass? <==> isValidId(productId)
    ensures r.Fail? ==> r.error == NotFound()
  {
    if !isValidId(productId) then Fail(NotFound()) else Pass
  }

  /** Returns the product with the id, or throws 404 when there is none. */
  function FindProductById(records: seq<Product>, productId: string): (r: Result<Product, AppError>)
    ensures r.Ok? ==> r.value in records && r.value.id == productId
    ensures r.Err? <==> forall i :: 0 <= i < |records| ==> records[i].id != productId
    ensures r.Err? ==> r.error == NotFound()
  {
    match FindById(records, productId)
    case None => Err(NotFound())
    case Some(p) => Ok(p)
  }

  /** Throws 401 unless the stored password equals the supplied one exactly. */
  function VerifyPassword(product: Product, password: string): (r: Outcome<AppError>)
    ensures r.Pass? <==> product.password == password
    ensures r.Fail? ==> r.error == StatusError(WrongPasswordMessage, 401)
  {
    if product.password != password then Fail(StatusError(WrongPasswordMessage, 401)) else Pass
  }

  /** Throws 409 when some stored product already has exactly this name. */
  function CheckDuplicateProductName(records: seq<Product>, name: string): (r: Outcome<AppError>)
    ensures r.Fail? <==> exists i :: 0 <= i < |records| && records[i].name == name
    ensures r.Fail? ==> r.error == StatusError(DuplicateNameMessage, 409)
  {
    if FindByName(records, name).Some? then Fail(StatusError(DuplicateNameMessage, 409)) else Pass
  }

  /** With distinct ids the lookup finds the one product that has the id. */
  lemma FindByIdFindsMember(records: seq<Product>, p: Product)
    requires p in records
    requires forall i, j :: 0 <= i < j < |records| ==> records[i].id != records[j].id
    ensures FindProductById(records, p.id) == Ok(p)
  {
  }
}
