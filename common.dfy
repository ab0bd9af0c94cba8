/** Types shared by every route: identifiers, optional request fields and the
    outcome of a request (a value, or the HTTP error the route answers with). */
module Common {

  /** Identifiers are the strings the routes compare (`author.toString() !== req.user.id`). */
  type UserId = string
  type StoryId = string
  type ContributionId = string

  datatype Option<+T> = None | Some(value: T)

  /** The error answers of the modelled routes: 400, 403 and 404. */
  datatype Error = BadRequest | Forbidden | NotFound

  datatype Outcome<+T> = Ok(value: T) | Err(error: Error)
}
