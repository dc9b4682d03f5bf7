/** The products router: its own length-bounded create schema, the create
    handler as a method of the product store, and the list and detail handlers
    as functions of the stored products. A handler's `Err` result is the error it
    passes on with `next(error)`; `Respond` sends it through the error handler. */
module ProductsRouter {
  import opened Results
  import opened Products
  import opened Http
  import opened JoiRules
  import ErrorHandler
  import ProductValidation
  import ProductService

  const CreatedMessage := "상품 생성에 성공했습니다."
  const ListedMessage := "상품 목록 조회에 성공했습니다."
  const DetailMessage := "상품 상세 조회에 성공했습니다."

  /** What the store reports when a new identifier collides with a stored one;
      its exact wording belongs to the database driver. */
  const DuplicateKeyMessage := "E11000 duplicate key error"

  function DuplicateKeyError(): AppError
  {
    AppError("MongoServerError", DuplicateKeyMessage, None)
  }

  /** The router's create schema: four required strings of 1 to 50 characters. */
  const CreateRules: seq<KeyRule> := [
    Text("name", Required("상품명을 입력해주세요."), "상품명은 문자열이어야 합니다.",
      Between(1, 50, "상품명은 최소 1자 이상이어야 합니다.", "상품명은 최대 50자 이하이어야 합니다.")),
    Text("description", Required("상품 설명을 입력해주세요."), "상품 설명은 문자열이어야 합니다.",
      Between(1, 50, "상품 설명은 최소 1자 이상이어야 합니다.", "상품 설명은 최대 50자 이하이어야 합니다.")),
    Text("manager", Required("담당자를 입력해주세요."), "담당자는 문자열이어야 합니다.",
      Between(1, 50, "담당자는 최소 1자 이상이어야 합니다.", "담당자는 최대 50자 이하이어야 합니다.")),
    Text("password", Required("비밀번호를 입력해주세요."), "비밀번호는 문자열이어야 합니다.",
      Between(1, 50, "비밀번호는 최소 1자 이상이어야 합니다.", "비밀번호는 최대 50자 이하이어야 합니다."))
  ]

  /** The key holds a string of 1 to 50 characters. */
  predicate HasBoundedText(p: Payload, key: string)
  {
    key in p && p[key].Str? && 1 <= |p[key].s| <= 50
  }

  function ValidateCreate(p: Payload): (r: Result<ProductValidation.CreateInput, Failure>)
    ensures r.Ok? <==>
      && HasBoundedText(p, "name") && HasBoundedText(p, "description")
      && HasBoundedText(p, "manager") && HasBoundedText(p, "password")
    ensures r.Ok? ==>
      r.value == ProductValidation.CreateInput(p["name"].s, p["description"].s, p["manager"].s, p["password"].s)
  {
    match CheckObject(p, CreateRules)
    case Err(f) => Err(f)
    case Ok(vs) =>
      assert Accepts(p, CreateRules[0]) && Accepts(p, CreateRules[1]);
      assert Accepts(p, CreateRules[2]) && Accepts(p, CreateRules[3]);
      Ok(ProductValidation.CreateInput(vs[0].value, vs[1].value, vs[2].value, vs[3].value))
  }

  /** Whatever the router's schema accepts, the validation file's schema accepts
      with the same sanitized payload. */
  lemma RouterSchemaIsStricter(p: Payload)
    requires ValidateCreate(p).Ok?
    ensures ProductValidation.ValidateCreate(p) == ValidateCreate(p)
  {
  }

  /** The converse fails: a 51-character name passes the unbounded schema only. */
  lemma LongNameSeparatesSchemas()
    ensures var p := map["name" := Str(seq(51, _ => 'a')), "description" := Str("d"),
                         "manager" := Str("m"), "password" := Str("p")];
      && ProductValidation.ValidateCreate(p).Ok?
      && ValidateCreate(p) == Err(Failure("name", StringMax, "상품명은 최대 50자 이하이어야 합니다."))
  {
    var p := map["name" := Str(seq(51, _ => 'a')), "description" := Str("d"),
                 "manager" := Str("m"), "password" := Str("p")];
    assert FirstRejected(p, CreateRules, 0);
    FirstRejectedIsReported(p, CreateRules, 0);
    CheckKeyFailure(p, CreateRules[0]);
  }

  /** A rejected payload is reported for the first of its keys that breaks a
      rule, and with that key's failure. */
  lemma CreateRejection(p: Payload) returns (k: int)
    requires ValidateCreate(p).Err?
    ensures FirstRejected(p, CreateRules, k)
    ensures ValidateCreate(p) == Err(CheckKey(p, CreateRules[k]).error)
  {
    k := SomeKeyIsFirstRejected(p, CreateRules);
    FirstRejectedIsReported(p, CreateRules, k);
  }

  /** Because the library rejects the empty string before the length rules run,
      the router's "at least 1 character" messages are never reported. */
  lemma MinimumLengthMessageUnreachable(p: Payload)
    requires ValidateCreate(p).Err?
    ensures ValidateCreate(p).error.rule in {AnyRequired, StringBase, StringEmpty, StringMax}
    ensures ValidateCreate(p).error.key in {"name", "description", "manager", "password"}
  {
    var k := CreateRejection(p);
    CheckKeyFailure(p, CreateRules[k]);
  }

  /** The product holding the largest order: what `findOne().sort('-order')` gives. */
  function FindMaxOrder(records: seq<Product>): (r: Option<Product>)
    ensures r.None? <==> records == []
    ensures r.Some? ==> r.value in records
    ensures r.Some? ==> forall i :: 0 <= i < |records| ==> records[i].order <= r.value.order
  {
    if records == [] then None
    else
      match FindMaxOrder(records[1..])
      case None => Some(records[0])
      case Some(m) => if m.order > records[0].order then Some(m) else Some(records[0])
  }

  /** The order a new product receives: one more than the largest, or 1. */
  function NextOrder(records: seq<Product>): (n: nat)
    ensures records == [] ==> n == 1
    ensures forall i :: 0 <= i < |records| ==> records[i].order < n
    ensures records != [] ==> exists i :: 0 <= i < |records| && n == records[i].order + 1
  {
    match FindMaxOrder(records)
    case None => 1
    case Some(m) => m.order + 1
  }

  /** The product the create handler stores, or the error it passes on: a
      validation failure, or the store refusing an identifier already in use. */
  function CreateOutcome(records: seq<Product>, p: Payload, newId: string, createdAt: Time, updatedAt: Time)
    : (r: Result<Product, AppError>)
    ensures r.Ok? <==> ValidateCreate(p).Ok? && forall i :: 0 <= i < |records| ==> records[i].id != newId
    ensures ValidateCreate(p).Err? ==> r == Err(ToAppError(ValidateCreate(p).error))
    ensures r.Ok? ==>
      && r.value.id == newId
      && r.value.name == p["name"].s && r.value.description == p["description"].s
      && r.value.manager == p["manager"].s && r.value.password == p["password"].s
      && r.value.status == ForSale
      && r.value.createdAt == createdAt && r.value.updatedAt == updatedAt
      && r.value.order == NextOrder(records)
  {
    match ValidateCreate(p)
    case Err(f) => Err(ToAppError(f))
    case Ok(input) =>
      if ProductService.FindById(records, newId).Some? then Err(DuplicateKeyError())
      else Ok(Product(newId, NextOrder(records), input.name, input.description, input.manager,
                      input.password, ForSale, createdAt, updatedAt))
  }

  function CreatedResponse(p: Product): Response
  {
    Response(201, Success(201, CreatedMessage, One(ViewOf(p))))
  }

  /** What the store keeps true: orders strictly increase in insertion order, and
      ids are distinct. */
  ghost predicate StoreInvariant(records: seq<Product>)
  {
    forall i, j :: 0 <= i < j < |records| ==>
      records[i].order < records[j].order && records[i].id != records[j].id
  }

  /** A successful create keeps the store invariant. */
  lemma CreatePreservesInvariant(records: seq<Product>, p: Payload, newId: string, t1: Time, t2: Time)
    requires StoreInvariant(records)
    requires CreateOutcome(records, p, newId, t1, t2).Ok?
    ensures StoreInvariant(records + [CreateOutcome(records, p, newId, t1, t2).value])
  {
  }

  /** Create never consults the names already stored: a name that the duplicate
      check would refuse is still accepted. */
  lemma CreateAcceptsDuplicateName(records: seq<Product>, p: Payload, newId: string, t1: Time, t2: Time)
    requires ValidateCreate(p).Ok?
    requires forall i :: 0 <= i < |records| ==> records[i].id != newId
    requires ProductService.CheckDuplicateProductName(records, p["name"].s).Fail?
    ensures CreateOutcome(records, p, newId, t1, t2).Ok?
    ensures exists i :: 0 <= i < |records| && records[i].name == CreateOutcome(records, p, newId, t1, t2).value.name
  {
  }

  /** The product store: the collection the handlers query and append to. */
  class ProductStore {
    var records: seq<Product>

    ghost predicate Valid()
      reads this
    {
      StoreInvariant(records)
    }

    constructor ()
      ensures Valid() && records == []
    {
      records := [];
    }

    /** POST /products: validate, take the next order, store the product with
        status FOR_SALE and answer 201 with the product minus its password. */
    method Create(p: Payload, newId: string, createdAt: Time, updatedAt: Time)
      returns (r: Result<Response, AppError>)
      requires Valid()
      modifies this
      ensures Valid()
      ensures
        match CreateOutcome(old(records), p, newId, createdAt, updatedAt)
        case Ok(product) => records == old(records) + [product] && r == Ok(CreatedResponse(product))
        case Err(e) => records == old(records) && r == Err(e)
    {
      var validation := ValidateCreate(p);
      if validation.Err? {
        return Err(ToAppError(validation.error));
      }
      var input := validation.value;
      var productMaxOrder := FindMaxOrder(records);
      var order := if productMaxOrder.Some? then productMaxOrder.value.order + 1 else 1;
      var product := Product(newId, order, input.name, input.description, input.manager,
                             input.password, ForSale, createdAt, updatedAt);
      if ProductService.FindById(records, newId).Some? {
        return Err(DuplicateKeyError());
      }
      CreatePreservesInvariant(records, p, newId, createdAt, updatedAt);
      records := records + [product];
      r := Ok(CreatedResponse(product));
    }
  }

  predicate SortedByOrderDesc(s: seq<Product>)
  {
    forall i, j :: 0 <= i < j < |s| ==> s[i].order >= s[j].order
  }

  /** A product whose order is at least the head's can go in front of a sorted list. */
  lemma ConsSorted(h: Product, t: seq<Product>)
    requires SortedByOrderDesc(t)
    requires t != [] ==> h.order >= t[0].order
    ensures SortedByOrderDesc([h] + t)
  {
  }

  function Insert(x: Product, s: seq<Product>): (r: seq<Product>)
    requires SortedByOrderDesc(s)
    ensures |r| == |s| + 1
    ensures r[0] == x || (s != [] && r[0] == s[0])
    ensures SortedByOrderDesc(r)
    ensures multiset(r) == multiset(s) + multiset{x}
  {
    if s == [] || x.order >= s[0].order then
      ConsSorted(x, s);
      [x] + s
    else
      var rest := Insert(x, s[1..]);
      ConsSorted(s[0], rest);
      assert s == [s[0]] + s[1..];
      assert multiset([s[0]] + rest) == multiset{s[0]} + multiset(rest);
      [s[0]] + rest
  }

  /** The stored products by descending order: what `find().sort('-order')` gives. */
  function SortByOrderDesc(s: seq<Product>): (r: seq<Product>)
    ensures |r| == |s|
    ensures SortedByOrderDesc(r)
    ensures multiset(r) == multiset(s)
  {
    if s == [] then []
    else
      assert s == [s[0]] + s[1..];
      Insert(s[0], SortByOrderDesc(s[1..]))
  }

  /** GET /products: every stored product minus its password, highest order first. */
  function ListProducts(records: seq<Product>): (r: Response)
    ensures r.code == 200 && r.body.Success? && r.body.status == 200
    ensures r.body.message == ListedMessage && r.body.data.Many?
    ensures |r.body.data.views| == |records|
    ensures forall i, j :: 0 <= i < j < |records| ==> r.body.data.views[i].order >= r.body.data.views[j].order
    ensures exists listed :: multiset(listed) == multiset(records) && r.body.data.views == ViewsOf(listed)
  {
    var sorted := SortByOrderDesc(records);
    Response(200, Success(200, ListedMessage, Many(ViewsOf(sorted))))
  }

  function Reverse(s: seq<Product>): (r: seq<Product>)
    ensures |r| == |s|
    ensures forall i :: 0 <= i < |s| ==> r[i] == s[|s| - 1 - i]
  {
    if s == [] then [] else Reverse(s[1..]) + [s[0]]
  }

  lemma {:induction false} InsertBelowAll(x: Product, s: seq<Product>)
    requires SortedByOrderDesc(s)
    requires forall i :: 0 <= i < |s| ==> x.order < s[i].order
    ensures Insert(x, s) == s + [x]
  {
    if s != [] {
      InsertBelowAll(x, s[1..]);
    }
  }

  /** In a store whose orders increase with insertion, the listing is the
      insertion sequence reversed: newest product first. */
  lemma {:induction false} SortOfIncreasingIsReverse(s: seq<Product>)
    requires StoreInvariant(s)
    ensures SortByOrderDesc(s) == Reverse(s)
  {
    if s != [] {
      assert StoreInvariant(s[1..]);
      SortOfIncreasingIsReverse(s[1..]);
      var t := Reverse(s[1..]);
      assert SortedByOrderDesc(t);
      InsertBelowAll(s[0], t);
    }
  }

  /** The listing of a well-formed store, item by item. */
  lemma ListIsNewestFirst(records: seq<Product>)
    requires StoreInvariant(records)
    ensures ListProducts(records).body.data.views == ViewsOf(Reverse(records))
  {
    SortOfIncreasingIsReverse(records);
  }

  function DetailResponse(p: Product): Response
  {
    Response(200, Success(200, DetailMessage, One(ViewOf(p))))
  }

  /** GET /products/:productId: 404 for a malformed or unknown id, otherwise
      the product minus its password. */
  function GetProduct(records: seq<Product>, isValidId: string -> bool, productId: string)
    : (r: Result<Response, AppError>)
    ensures r.Err? <==> !isValidId(productId) || forall i :: 0 <= i < |records| ==> records[i].id != productId
    ensures r.Err? ==> r.error == NotFound()
    ensures r.Ok? ==> exists p :: p in records && p.id == productId && r.value == DetailResponse(p)
  {
    if !isValidId(productId) then Err(NotFound())
    else
      match ProductService.FindById(records, productId)
      case None => Err(NotFound())
      case Some(p) => Ok(DetailResponse(p))
  }

  /** In a well-formed store, the detail of a stored product is that product. */
  lemma GetProductReturnsStored(records: seq<Product>, isValidId: string -> bool, p: Product)
    requires StoreInvariant(records)
    requires p in records && isValidId(p.id)
    ensures GetProduct(records, isValidId, p.id) == Ok(DetailResponse(p))
  {
    ProductService.FindByIdFindsMember(records, p);
  }

  /** The response a handler's result turns into once errors pass through the
      error handler. */
  function Respond(r: Result<Response, AppError>): Response
  {
    match r
    case Ok(resp) => resp
    case Err(e) => ErrorHandler.HandleError(e)
  }

  /** Both detail failures reach the client as 404 with the not-found message. */
  lemma GetProductMissResponds404(records: seq<Product>, isValidId: string -> bool, productId: string)
    requires !isValidId(productId) || forall i :: 0 <= i < |records| ==> records[i].id != productId
    ensures Respond(GetProduct(records, isValidId, productId)) == Response(404, ErrorBody(404, NotFoundMessage))
  {
  }

  /** A rejected create payload reaches the client as 400 with the failure's
      message; a colliding identifier reaches it as the generic 500. */
  lemma CreateFailureResponses(records: seq<Product>, p: Payload, newId: string, t1: Time, t2: Time)
    ensures ValidateCreate(p).Err? ==>
      CreateOutcome(records, p, newId, t1, t2).Err? &&
      ErrorHandler.HandleError(CreateOutcome(records, p, newId, t1, t2).error)
        == Response(400, ErrorBody(400, ValidateCreate(p).error.message))
    ensures ValidateCreate(p).Ok? && ProductService.FindById(records, newId).Some? ==>
      CreateOutcome(records, p, newId, t1, t2).Err? &&
      ErrorHandler.HandleError(CreateOutcome(records, p, newId, t1, t2).error)
        == Response(500, InternalErrorBody(500, ErrorHandler.UnexpectedErrorMessage))
  {
  }
}
