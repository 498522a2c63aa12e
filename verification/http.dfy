/** What a handler answers, reduced to the cases the controllers distinguish,
    and the per-request context every handler receives. */
module Http {
  import opened Database

  /** A field name mapped to its messages (`$validator->getMessageBag()`). */
  type Errors = map<string, seq<string>>

  /** The `message` of every 400 body the request classes and controllers build. */
  const FormValidationError := "Form Validation Error"

  datatype Response<+T> =
    | Forbidden                    // abort(403), or a request class refusing authorization
    | NotFound                     // route-model binding found no row
    | Invalid(errors: Errors)      // {"message": "Form Validation Error", "errors": ...}
    | Unprocessable(errors: Errors) // $request->validate(...) failing inside a controller
    | ServerError                  // an exception the code does not catch
    | Created(body: T)
    | Ok(body: T)
  {
    function Status(): nat
    {
      match this
      case Forbidden => 403
      case NotFound => 404
      case Invalid(_) => 400
      case Unprocessable(_) => 422
      case ServerError => 500
      case Created(_) => 201
      case Ok(_) => 200
    }

    /** A refusal: the request was turned away before anything was written. */
    predicate Refused()
    {
      Forbidden? || NotFound? || Invalid? || Unprocessable?
    }
  }

  /** A handled request: what is answered, and the database afterwards. */
  datatype Step<+T> = Step(response: Response<T>, db: Db)

  /** The error body a controller builds when a name (or e-mail) is already in use. */
  function Duplicate(field: string, message: string): Errors
  {
    map[field := [message]]
  }

  /** The Inertia page type passed to the form pages. */
  datatype FormKind = CreateForm | ShowForm | EditForm

  /** What a request carries besides its payload: the ability names the acting
      user's `can` answers true for, the clock reading, and the e-mail format
      check (a foreign rule, left uninterpreted). */
  datatype Ctx = Ctx(granted: set<string>, now: Stamp, isEmail: string -> bool)
}
