/** The centralised error handler (server/src/middleware/errorHandler.js):
    the error a route passes to `next(error)` becomes a status and a message. */
module ErrorHandler {
  import opened Common
  import Database

  /** The parts of a thrown error the handler inspects. */
  datatype ErrorValue = ErrorValue(
    name: string,                     // `err.name`
    code: Option<int>,                // `err.code`
    fieldMessages: seq<string>,       // `Object.values(err.errors).map(e => e.message)`
    keyPattern: seq<string>,          // `Object.keys(err.keyPattern)`
    arrayMessages: Option<seq<string>>,  // the `msg` of each entry of `err.array()`, when it is a function
    statusCode: Option<nat>,          // `err.statusCode`
    message: Option<string>)          // `err.message`

  const DuplicateKeyCode: int := 11000
  const FallbackMessage: string := "An unexpected error occurred."

  /** The shapes the handler tells apart, in the order it tries them. */
  datatype Shape = MongooseValidation | DuplicateKey | CastError | ValidatorArray | Unclassified

  function ShapeOf(err: ErrorValue): (k: Shape)
    ensures k == MongooseValidation <==> err.name == "ValidationError"
    ensures k == DuplicateKey <==> err.name != "ValidationError" && err.code == Some(DuplicateKeyCode)
    ensures k == CastError <==>
      err.name != "ValidationError" && err.code != Some(DuplicateKeyCode) && err.name == "CastError"
    ensures k == ValidatorArray <==>
      err.name !in ["ValidationError", "CastError"] && err.code != Some(DuplicateKeyCode) && err.arrayMessages.Some?
  {
    if err.name == "ValidationError" then MongooseValidation
    else if err.code == Some(DuplicateKeyCode) then DuplicateKey
    else if err.name == "CastError" then CastError
    else if err.arrayMessages.Some? then ValidatorArray
    else Unclassified
  }

  /** The template literal of the duplicate-key branch; an empty key pattern
      interpolates `undefined`. */
  function DuplicateMessage(keys: seq<string>): (r: string)
    ensures keys != [] ==> |r| > |keys[0]| && r[..|keys[0]|] == keys[0]
    ensures keys != [] ==> r[|r| - |keys[0]| - 1..] == keys[0] + "."
    ensures keys == [] ==> |r| > 9 && r[..9] == "undefined"
  {
    var field := if keys == [] then "undefined" else keys[0];
    field + " already exists. Please use a different " + field + "."
  }

  /** `errorHandler(err, req, res, next)`. */
  function Handle(err: ErrorValue): (r: Reply)
    ensures !r.success
    ensures ShapeOf(err) != Unclassified ==> r.status == 400
    ensures ShapeOf(err) == MongooseValidation ==> r.message == Join(err.fieldMessages, ", ")
    ensures ShapeOf(err) == DuplicateKey ==> r.message == DuplicateMessage(err.keyPattern)
    ensures ShapeOf(err) == CastError ==> r.message == "Invalid ID format."
    ensures ShapeOf(err) == ValidatorArray ==> r.message == Join(err.arrayMessages.value, ", ")
    ensures ShapeOf(err) == Unclassified ==>
      && r.status == (if err.statusCode.Some? && err.statusCode.value != 0 then err.statusCode.value else 500)
      && r.message == (if Truthy(err.message) then err.message.value else FallbackMessage)
  {
    if err.name == "ValidationError" then Refuse(400, Join(err.fieldMessages, ", "))
    else if err.code == Some(DuplicateKeyCode) then Refuse(400, DuplicateMessage(err.keyPattern))
    else if err.name == "CastError" then Refuse(400, "Invalid ID format.")
    else if err.arrayMessages.Some? then Refuse(400, Join(err.arrayMessages.value, ", "))
    else
      Refuse(if err.statusCode.Some? && err.statusCode.value != 0 then err.statusCode.value else 500,
             if Truthy(err.message) then err.message.value else FallbackMessage)
  }

  /** What the store throws, in the shape the handler sees: Mongoose's
      `ValidationError` and the MongoDB driver's duplicate-key error. */
  function Thrown(e: Database.StoreError): (err: ErrorValue)
    ensures e.ValidationFailed? ==> ShapeOf(err) == MongooseValidation && err.fieldMessages == e.messages
    ensures e.DuplicateKey? ==> ShapeOf(err) == DuplicateKey && err.keyPattern == e.fields
  {
    match e
    case ValidationFailed(messages) =>
      ErrorValue("ValidationError", None, messages, [], None, None, Some("Validation failed"))
    case DuplicateKey(fields) =>
      ErrorValue("MongoServerError", Some(DuplicateKeyCode), [], fields, None, None, Some("E11000 duplicate key error"))
  }

  /** Every error the store throws becomes a 400 naming what went wrong: the
      schema's messages joined, or the field the unique index refused. */
  lemma StoreErrorsAre400(e: Database.StoreError)
    ensures Handle(Thrown(e)).status == 400 && !Handle(Thrown(e)).success
    ensures e.ValidationFailed? ==> Handle(Thrown(e)).message == Join(e.messages, ", ")
    ensures e.DuplicateKey? && e.fields != [] ==>
      Handle(Thrown(e)).message == e.fields[0] + " already exists. Please use a different " + e.fields[0] + "."
  {
  }

  /** A status other than 400 comes only from an error none of the four
      branches recognises. */
  lemma OnlyUnclassifiedEscape400(err: ErrorValue)
    ensures Handle(err).status != 400 ==> ShapeOf(err) == Unclassified
    ensures ShapeOf(err) == Unclassified && err.statusCode.None? ==> Handle(err).status == 500
  {
  }
}
