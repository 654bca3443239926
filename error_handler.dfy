/** server/src/middleware/errorHandler.ts: the JSON error report chosen by the response's status code. */
module ErrorHandling {
  import opened Common
  import opened Express

  /** A thrown error: its message and its (possibly undefined) stack. */
  datatype Error = Error(message: string, stack: Option<string>)

  /** `res.statusCode ? res.statusCode : 500`: a zero (unset) code counts as 500. */
  function EffectiveStatus(statusCode: int): (code: int)
    ensures statusCode != 0 ==> code == statusCode
    ensures statusCode == 0 ==> code == 500
  {
    if statusCode != 0 then statusCode else 500
  }

  /** The switch's cases: the title for each handled code, nothing for any other. */
  function Title(code: int): (title: Option<string>)
    ensures title.Some? <==> code in {400, 401, 403, 404, 500}
  {
    match code
    case 400 => Some("Validation Failed")
    case 404 => Some("Not Found")
    case 401 => Some("Unauthorized")
    case 403 => Some("Forbidden")
    case 500 => Some("Server Error")
    case _ => None
  }

  /**
   * `errorHandler`: for a handled code, a report with that code's title and the error's own
   * message and stack; for any other code (such as 200) no body at all.
   */
  function ErrorHandler(statusCode: int, err: Error): (body: Option<Json>)
    ensures body.Some? <==> EffectiveStatus(statusCode) in {400, 401, 403, 404, 500}
    ensures body.Some? ==>
      body.value == ErrorJson(Title(EffectiveStatus(statusCode)).value, err.message, err.stack)
  {
    match Title(EffectiveStatus(statusCode))
    case Some(title) => Some(ErrorJson(title, err.message, err.stack))
    case None => None
  }

  /** The five titles, code by code. */
  lemma Titles()
    ensures Title(400) == Some("Validation Failed")
    ensures Title(404) == Some("Not Found")
    ensures Title(401) == Some("Unauthorized")
    ensures Title(403) == Some("Forbidden")
    ensures Title(500) == Some("Server Error")
  {
  }

  /** Distinct handled codes get distinct titles, so a title identifies its code. */
  lemma TitlesDistinct(a: int, b: int)
    requires Title(a).Some? && Title(b).Some? && a != b
    ensures Title(a) != Title(b)
  {
  }

  /** An error raised while the status is still 200 produces no report. */
  lemma NoReportAtOk(err: Error)
    ensures ErrorHandler(200, err) == None
  {
  }
}
