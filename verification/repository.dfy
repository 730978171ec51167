/**
  The store repository, seen from the service: an oracle that answers each
  call the service makes during one service operation. Its internals (queue
  order, positions, storage) are not part of this model, so nothing is
  assumed about the answers beyond their shape.
 */
module Repository {
  import opened Domain

  /** A Go `(value, error)` return: `err` is the message of a non-nil error. */
  datatype Reply<+T> = Reply(value: T, err: Option<string>)

  /** The repository's answer to every call it can receive. `notFoundStore` is
      the text of the repository's `ErrorNotFoundStore` constant. */
  datatype Oracle = Oracle(
    notFoundStore: string,
    create: Store -> Reply<Option<Store>>,
    removeStore: string -> Reply<()>,
    getAllStores: Reply<seq<string>>,
    getStore: string -> Reply<Option<Store>>,
    getStoreByID: string -> Reply<Option<Store>>,
    addConsumer: (string, Consumer) -> Reply<()>,
    removeConsumer: (string, string) -> Reply<()>,
    getConsumer: (string, string) -> Reply<Placement>,
    getAllConsumers: string -> Reply<seq<Consumer>>,
    validateConsumer: (string, string) -> Reply<Placement>
  )

  /** One call the service makes on the repository, with its arguments. */
  datatype Call =
    | CreateCall(store: Store)
    | RemoveStoreCall(id: string)
    | GetAllStoresCall
    | GetStoreCall(name: string)
    | GetStoreByIDCall(id: string)
    | AddConsumerCall(id: string, consumer: Consumer)
    | RemoveConsumerCall(id: string, phone: string)
    | GetConsumerCall(id: string, phone: string)
    | GetAllConsumersCall(id: string)
    | ValidateConsumerCall(storeName: string, accessKey: string)

  /** The error message, if any, the repository returns for a call. */
  function CallError(repo: Oracle, c: Call): Option<string> {
    match c
    case CreateCall(s) => repo.create(s).err
    case RemoveStoreCall(id) => repo.removeStore(id).err
    case GetAllStoresCall => repo.getAllStores.err
    case GetStoreCall(name) => repo.getStore(name).err
    case GetStoreByIDCall(id) => repo.getStoreByID(id).err
    case AddConsumerCall(id, consumer) => repo.addConsumer(id, consumer).err
    case RemoveConsumerCall(id, phone) => repo.removeConsumer(id, phone).err
    case GetConsumerCall(id, phone) => repo.getConsumer(id, phone).err
    case GetAllConsumersCall(id) => repo.getAllConsumers(id).err
    case ValidateConsumerCall(storeName, key) => repo.validateConsumer(storeName, key).err
  }
}
