/** The three payload schemas of the product validation file: create, update and
    delete, each a total function from a request body to either the sanitized
    payload or the first failure. */
module ProductValidation {
  import opened Results
  import opened Products
  import opened JoiRules

  const NameBaseMessage := "상품명은 문자열이어야 합니다."
  const NameRequiredMessage := "상품명을 입력해주세요."
  const DescriptionBaseMessage := "상품 설명은 문자열이어야 합니다."
  const DescriptionRequiredMessage := "상품 설명을 입력해주세요."
  const ManagerBaseMessage := "담당자는 문자열이어야 합니다."
  const ManagerRequiredMessage := "담당자를 입력해주세요."
  const PasswordBaseMessage := "비밀번호는 문자열이어야 합니다."
  const PasswordRequiredMessage := "비밀번호를 입력해주세요."
  const StatusOnlyMessage := "상태는 FOR_SALE 또는 SOLD_OUT 이어야 합니다."

  /** A sanitized create payload. */
  datatype CreateInput = CreateInput(name: string, description: string, manager: string, password: string)

  /** A sanitized update payload: every field but the password may be absent. */
  datatype UpdateInput = UpdateInput(
    name: Option<string>,
    description: Option<string>,
    manager: Option<string>,
    status: Option<Status>,
    password: string)

  /** A sanitized delete payload. */
  datatype DeleteInput = DeleteInput(password: string)

  const CreateRules: seq<KeyRule> := [
    Text("name", Required(NameRequiredMessage), NameBaseMessage, Unbounded),
    Text("description", Required(DescriptionRequiredMessage), DescriptionBaseMessage, Unbounded),
    Text("manager", Required(ManagerRequiredMessage), ManagerBaseMessage, Unbounded),
    Text("password", Required(PasswordRequiredMessage), PasswordBaseMessage, Unbounded)
  ]

  const UpdateRules: seq<KeyRule> := [
    Text("name", Optional, NameBaseMessage, Unbounded),
    Text("description", Optional, DescriptionBaseMessage, Unbounded),
    Text("manager", Optional, ManagerBaseMessage, Unbounded),
    OneOf("status", Optional, {"FOR_SALE", "SOLD_OUT"}, StatusOnlyMessage),
    Text("password", Required(PasswordRequiredMessage), PasswordBaseMessage, Unbounded)
  ]

  const DeleteRules: seq<KeyRule> := [
    Text("password", Required(PasswordRequiredMessage), PasswordBaseMessage, Unbounded)
  ]

  /** The key holds a non-empty string. */
  predicate HasText(p: Payload, key: string)
  {
    key in p && p[key].Str? && p[key].s != ""
  }

  /** The key is absent or holds a non-empty string. */
  predicate OptionalText(p: Payload, key: string)
  {
    key !in p || HasText(p, key)
  }

  function ParseStatus(s: string): Option<Status>
  {
    if s == "FOR_SALE" then Some(ForSale)
    else if s == "SOLD_OUT" then Some(SoldOut)
    else None
  }

  /** The create schema: four required strings, no length bounds. */
  function ValidateCreate(p: Payload): (r: Result<CreateInput, Failure>)
    ensures r.Ok? <==>
      HasText(p, "name") && HasText(p, "description") && HasText(p, "manager") && HasText(p, "password")
    ensures r.Ok? ==> r.value == CreateInput(p["name"].s, p["description"].s, p["manager"].s, p["password"].s)
  {
    match CheckObject(p, CreateRules)
    case Err(f) => Err(f)
    case Ok(vs) =>
      assert Accepts(p, CreateRules[0]) && Accepts(p, CreateRules[1]);
      assert Accepts(p, CreateRules[2]) && Accepts(p, CreateRules[3]);
      Ok(CreateInput(vs[0].value, vs[1].value, vs[2].value, vs[3].value))
  }

  /** The update schema: the password is required, everything else is optional,
      and a status must be one of the two enumerated names. */
  function ValidateUpdate(p: Payload): (r: Result<UpdateInput, Failure>)
    ensures r.Ok? <==>
      && OptionalText(p, "name") && OptionalText(p, "description") && OptionalText(p, "manager")
      && ("status" in p ==> p["status"] in {Str("FOR_SALE"), Str("SOLD_OUT")})
      && HasText(p, "password")
    ensures r.Ok? ==>
      && r.value.password == p["password"].s
      && r.value.name == Sanitized(p, "name")
      && r.value.description == Sanitized(p, "description")
      && r.value.manager == Sanitized(p, "manager")
      && (r.value.status.None? <==> "status" !in p)
      && ("status" in p ==> StatusName(r.value.status.value) == p["status"].s)
  {
    match CheckObject(p, UpdateRules)
    case Err(f) => Err(f)
    case Ok(vs) =>
      assert Accepts(p, UpdateRules[0]) && Accepts(p, UpdateRules[1]) && Accepts(p, UpdateRules[2]);
      assert Accepts(p, UpdateRules[3]) && Accepts(p, UpdateRules[4]);
      var status := if vs[3].Some? then ParseStatus(vs[3].value) else None;
      Ok(UpdateInput(vs[0], vs[1], vs[2], status, vs[4].value))
  }

  /** The delete schema: only the password, which is required. */
  function ValidateDelete(p: Payload): (r: Result<DeleteInput, Failure>)
    ensures r.Ok? <==> HasText(p, "password")
    ensures r.Ok? ==> r.value == DeleteInput(p["password"].s)
    ensures "password" !in p ==> r == Err(Failure("password", AnyRequired, PasswordRequiredMessage))
    ensures "password" in p && p["password"].NonString? ==>
      r == Err(Failure("password", StringBase, PasswordBaseMessage))
  {
    match CheckObject(p, DeleteRules)
    case Err(f) => Err(f)
    case Ok(vs) =>
      assert Accepts(p, DeleteRules[0]);
      Ok(DeleteInput(vs[0].value))
  }

  /** A key that is missing or not a string, with every key declared before it
      acceptable, is the one the create schema reports, with its own message. */
  lemma CreateReportsFirstBadKey(p: Payload, k: nat)
    requires k < |CreateRules|
    requires forall j :: 0 <= j < k ==> HasText(p, CreateRules[j].key)
    requires CreateRules[k].key !in p || p[CreateRules[k].key].NonString?
    ensures ValidateCreate(p).Err?
    ensures CreateRules[k].key !in p ==>
      ValidateCreate(p).error == Failure(CreateRules[k].key, AnyRequired, CreateRules[k].presence.requiredMessage)
    ensures CreateRules[k].key in p ==>
      ValidateCreate(p).error == Failure(CreateRules[k].key, StringBase, CreateRules[k].baseMessage)
  {
    assert FirstRejected(p, CreateRules, k);
    FirstRejectedIsReported(p, CreateRules, k);
    CheckKeyFailure(p, CreateRules[k]);
  }

  /** A body holding only a password is a valid update that changes nothing else. */
  lemma PasswordOnlyUpdateIsValid(password: string)
    requires password != ""
    ensures ValidateUpdate(map["password" := Str(password)])
         == Ok(UpdateInput(None, None, None, None, password))
  {
  }

  /** A status outside the two names is rejected with the status message when the
      keys declared before it are acceptable, even if the password is missing. */
  lemma UpdateRejectsUnknownStatus(p: Payload)
    requires OptionalText(p, "name") && OptionalText(p, "description") && OptionalText(p, "manager")
    requires "status" in p && p["status"] !in {Str("FOR_SALE"), Str("SOLD_OUT")}
    ensures ValidateUpdate(p) == Err(Failure("status", AnyOnly, StatusOnlyMessage))
  {
    assert FirstRejected(p, UpdateRules, 3);
    FirstRejectedIsReported(p, UpdateRules, 3);
    CheckKeyFailure(p, UpdateRules[3]);
  }

  /** A missing password is reported once every other key is acceptable. */
  lemma UpdateRequiresPassword(p: Payload)
    requires OptionalText(p, "name") && OptionalText(p, "description") && OptionalText(p, "manager")
    requires "status" in p ==> p["status"] in {Str("FOR_SALE"), Str("SOLD_OUT")}
    requires "password" !in p
    ensures ValidateUpdate(p) == Err(Failure("password", AnyRequired, PasswordRequiredMessage))
  {
    assert FirstRejected(p, UpdateRules, 4);
    FirstRejectedIsReported(p, UpdateRules, 4);
    CheckKeyFailure(p, UpdateRules[4]);
  }
}
