/**
  The records the store service passes around and the errors it reports.
  Go's nil pointers are `None`; a Go `error` is `Some` of an `Error`.
 */
module Domain {

  datatype Option<+T> = None | Some(value: T)

  /** A registered business. `urlName` is its access URL, fixed at creation. */
  datatype Store = Store(id: string, name: string, urlName: string)

  /** A person in a store's line; `accessKey` is the ticket credential. */
  datatype Consumer = Consumer(name: string, phone: string, accessKey: string, status: string)

  /** A consumer's place in line as the repository reports it, with the
      consumer record (nil when the repository gives none). */
  datatype Placement = Placement(position: int, consumer: Option<Consumer>)

  /** What the service hands back on every failed position query. */
  const NoPlacement := Placement(-1, None)

  /** The errors the service returns. `InvalidArgument` and `StoreExists` are
      made by the service itself; `Repository` carries, unchanged, the text of
      an error the repository returned. */
  datatype Error =
    | InvalidArgument(msg: string)
    | StoreExists
    | Repository(msg: string)

  // Messages of the errors the service creates (service/store_service.go:17-34).
  const ErrorArgumentNotValidGetStore := "Os parametros para pesquisa do estabelecimento devem ser preenchidos"
  const ErrorArgumentNotValidAddStore := "Os parametros para inserção do estabelecimento devem ser preenchidos"
  const ErrorArgumentNotValidRemoveStore := "Os parametros para remoção do estabelecimento devem ser preenchidos"
  const ErrorArgumentNotValidAddConsumer := "Os parametros para inserção de consumidor devem ser preenchidos"
  const ErrorArgumentNotValidRemoveConsumer := "Os parametros para remoção de consumidor devem ser preenchidos"
  const ErrorArgumentNotValidGetConsumer := "Os parametros para pesquisa de consumidor devem ser preenchidos"
  const ErrorArgumentNotValidValidateConsumer := "Os parametros para validação de consumidor devem ser preenchidos"
  const ErrorStoreExists := "Estabelecimento com nome já cadastrado"

  /** The text `err.Error()` yields for an error. */
  function Message(e: Error): string {
    match e
    case InvalidArgument(m) => m
    case StoreExists => ErrorStoreExists
    case Repository(m) => m
  }
}
