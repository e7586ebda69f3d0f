/** Outcomes of the request handlers, reduced to the kind of HTTP answer they give. */
module Respuestas {

  /** The response kinds the controllers send: 200, 201, 400, 404 and 500. */
  datatype Estado = Ok | Creado | SolicitudInvalida | NoEncontrado | ErrorServidor

  /** A value, or the error response that replaced it. */
  datatype Resultado<T> = Exito(valor: T) | Fallo(estado: Estado)

  /** A field of a request body that may be absent. */
  datatype Option<T> = None | Some(value: T)
}
