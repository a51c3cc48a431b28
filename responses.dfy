/**
  `APIResponse`: the dictionary and status code each helper hands to `jsonify`. The JSON
  encoding itself is not modelled; a response is the dictionary and the status.
 */
module Responses {
  import opened PyValues

  datatype Response = Response(body: map<string, Value>, status: int)

  /** The `success` flag of a response body, when it has one. */
  predicate Succeeded(r: Response) {
    "success" in r.body && r.body["success"] == PyBool(true)
  }

  predicate Failed(r: Response) {
    "success" in r.body && r.body["success"] == PyBool(false)
  }

  /** `success`: a `data` key only when `data` is not `None`. */
  function Success(data: Value := PyNone, message: string := "Operación exitosa", statusCode: int := 200): (r: Response)
    ensures Succeeded(r) && r.status == statusCode && "message" in r.body && r.body["message"] == PyStr(message)
    ensures r.body.Keys == if data == PyNone then {"success", "message"} else {"success", "message", "data"}
    ensures "data" in r.body ==> r.body["data"] == data
  {
    var base := map["success" := PyBool(true), "message" := PyStr(message)];
    Response(if data != PyNone then base["data" := data] else base, statusCode)
  }

  /** `error`: an `errors` key only when `errors` is truthy, so an empty dictionary is dropped. */
  function Error(message: string := "Error en la operación", statusCode: int := 400, errors: Value := PyNone): (r: Response)
    ensures Failed(r) && r.status == statusCode && "message" in r.body && r.body["message"] == PyStr(message)
    ensures r.body.Keys == if Truthy(errors) then {"success", "message", "errors"} else {"success", "message"}
    ensures "errors" in r.body ==> r.body["errors"] == errors
  {
    var base := map["success" := PyBool(false), "message" := PyStr(message)];
    Response(if Truthy(errors) then base["errors" := errors] else base, statusCode)
  }

  function Created(data: Value, message: string := "Recurso creado exitosamente"): Response {
    Success(data, message, 201)
  }

  function Unauthorized(message: string := "No autorizado"): Response {
    Error(message, 401)
  }

  function Forbidden(message: string := "Acceso prohibido"): Response {
    Error(message, 403)
  }

  function NotFound(message: string := "Recurso no encontrado"): Response {
    Error(message, 404)
  }

  function ValidationError(message: string := "Error de validación", errors: Value := PyNone): Response {
    Error(message, 422, errors)
  }

  function InternalError(message: string := "Error interno del servidor"): Response {
    Error(message, 500)
  }

  /** The status each named helper produces, its `success` flag and its default message. */
  lemma HelperShapes(data: Value, message: string, errors: Value)
    ensures Succeeded(Created(data, message)) && Created(data, message).status == 201
    ensures Created(data, message).body == Success(data, message).body
    ensures Failed(Unauthorized(message)) && Unauthorized(message).status == 401
    ensures Failed(Forbidden(message)) && Forbidden(message).status == 403
    ensures Failed(NotFound(message)) && NotFound(message).status == 404
    ensures Failed(ValidationError(message, errors)) && ValidationError(message, errors).status == 422
    ensures ValidationError(message, errors).body == Error(message, 400, errors).body
    ensures Failed(InternalError(message)) && InternalError(message).status == 500
    ensures Unauthorized().body["message"] == PyStr("No autorizado")
    ensures Forbidden().body["message"] == PyStr("Acceso prohibido")
    ensures NotFound().body["message"] == PyStr("Recurso no encontrado")
    ensures InternalError().body["message"] == PyStr("Error interno del servidor")
    ensures ValidationError().body["message"] == PyStr("Error de validación")
    ensures Created(data).body["message"] == PyStr("Recurso creado exitosamente")
  {
  }

  /** A body is never both a success and an error, so the flag tells the two helpers apart. */
  lemma SuccessIsNotError(r: Response)
    requires Succeeded(r)
    ensures !Failed(r)
  {
  }

  /** Passing an empty dictionary of errors is the same as passing none. */
  lemma EmptyErrorsDropped(message: string, statusCode: int)
    ensures Error(message, statusCode, PyDict(map[])) == Error(message, statusCode)
    ensures ValidationError(message, PyDict(map[])) == ValidationError(message)
  {
  }
}
