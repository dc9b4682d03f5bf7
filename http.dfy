/** The values the request handlers hand to the web framework: an error object
    passed on with `next(error)`, and a (status code, JSON body) response. */
module Http {
  import opened Results
  import opened Products

  /** A thrown JavaScript error: its `name`, its `message` and the optional
      `status` property the service code sets on it. */
  datatype AppError = AppError(name: string, message: string, status: Option<int>)

  /** The payload under a success body's `data` key. */
  datatype Data = One(view: ProductView) | Many(views: seq<ProductView>)

  datatype Body =
    | Success(status: int, message: string, data: Data)  // { status, message, data }
    | ErrorBody(status: int, message: string)            // { status, message }
    | InternalErrorBody(status: int, errorMessage: string) // { status, errorMessage }

  datatype Response = Response(code: int, body: Body)

  const NotFoundMessage := "상품이 존재하지 않습니다."
  const WrongPasswordMessage := "비밀번호가 일치하지 않습니다."
  const DuplicateNameMessage := "이미 등록된 상품입니다."

  /** `new Error(message)` with `error.status = status`. */
  function StatusError(message: string, status: int): (e: AppError)
    ensures e.name == "Error" && e.message == message && e.status == Some(status)
  {
    AppError("Error", message, Some(status))
  }

  function NotFound(): AppError { StatusError(NotFoundMessage, 404) }
}
