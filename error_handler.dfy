/** The application's error-handling middleware, as a total function from the
    error passed to it to the response it sends. */
module ErrorHandler {
  import opened Results
  import opened Http

  const UnexpectedErrorMessage := "예상치 못한 에러가 발생했습니다. 관리자에게 문의해 주세요."

  /** A validation error is a 400, any other error carrying status 404 is a 404,
      and everything else is a 500 with a fixed text. */
  function HandleError(err: AppError): (r: Response)
    ensures r.code == r.body.status
    ensures r.code in {400, 404, 500}
    ensures r.code == 400 <==> err.name == "ValidationError"
    ensures r.code == 404 <==> err.name != "ValidationError" && err.status == Some(404)
    ensures r.code != 500 ==> r.body == ErrorBody(r.code, err.message)
    ensures r.code == 500 ==> r.body == InternalErrorBody(500, UnexpectedErrorMessage)
  {
    if err.name == "ValidationError" then
      Response(400, ErrorBody(400, err.message))
    else if err.status == Some(404) then
      Response(404, ErrorBody(404, err.message))
    else
      Response(500, InternalErrorBody(500, UnexpectedErrorMessage))
  }

  /** The name test comes first: a validation error that also carries status 404
      is still answered with 400. */
  lemma ValidationTakesPriority(message: string)
    ensures HandleError(AppError("ValidationError", message, Some(404))).code == 400
  {
  }

  /** The 500 answer does not depend on the error at all, so no internal message
      ever reaches the client through it. */
  lemma InternalErrorsAreIndistinguishable(e1: AppError, e2: AppError)
    requires HandleError(e1).code == 500 && HandleError(e2).code == 500
    ensures HandleError(e1) == HandleError(e2)
  {
  }

  /** The handler knows only 400 and 404: the service's 401 and 409 errors come
      out as 500. */
  lemma UnauthorizedAndConflictBecome500(message: string)
    ensures HandleError(StatusError(message, 401)).code == 500
    ensures HandleError(StatusError(message, 409)).code == 500
    ensures HandleError(StatusError(message, 404)) == Response(404, ErrorBody(404, message))
  {
  }
}
