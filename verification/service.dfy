/**
  The store service: `StoreServiceImpl` and `StoreMockServiceImpl`, which run
  the same ten operations over a store repository. Each operation checks its
  arguments, calls the repository, and shapes the answer. The repository is
  an `Oracle`, so every operation is a pure function of its arguments and of
  the repository's answers, and reports the calls it made in `calls`.
 */
module Service {
  import opened Domain
  import opened Repository
  import Text
  import Urls

  /** The two implementations; they differ only in the base of the store
      access URL and in the repository call behind `ValidateConsumer`. */
  datatype Impl = StoreServiceImpl | StoreMockServiceImpl

  /** The base of store access URLs; it does not end in `/`, so the access
      URL separates base and name by exactly one slash. */
  function BaseURL(impl: Impl): (base: string)
    ensures |base| > 0 && base[|base| - 1] != '/'
  {
    match impl
    case StoreServiceImpl => "http://localhost:8080/mystore"
    case StoreMockServiceImpl => "http://app.filas.com"
  }

  /** A Go `(value, error)` return together with the repository calls made. */
  datatype Outcome<+T> = Outcome(value: T, err: Option<Error>, calls: seq<Call>)

  /** A repository error, passed on unchanged. */
  function Lift(err: Option<string>): (e: Option<Error>)
    ensures e.None? <==> err.None?
    ensures err.Some? ==> e == Some(Repository(err.value))
  {
    match err
    case None => None
    case Some(m) => Some(Repository(m))
  }

  /** `o` is an argument rejection: the zero value, an `InvalidArgument` error
      with message `msg`, and no repository call at all. */
  predicate Rejects<T(==)>(o: Outcome<T>, zero: T, msg: string) {
    o == Outcome(zero, Some(InvalidArgument(msg)), [])
  }

  /** `o` hands back the repository's answer to `call` untouched: one call,
      the repository's error unchanged, and its value when there is no error,
      the zero value otherwise. */
  predicate Forwards<T(==)>(o: Outcome<T>, call: Call, reply: Reply<T>, zero: T) {
    && o.calls == [call]
    && o.err == Lift(reply.err)
    && o.value == (if reply.err.Some? then zero else reply.value)
  }

  function Reject<T>(zero: T, msg: string): Outcome<T> {
    Outcome(zero, Some(InvalidArgument(msg)), [])
  }

  function Forward<T>(call: Call, reply: Reply<T>, zero: T): Outcome<T> {
    Outcome(if reply.err.Some? then zero else reply.value, Lift(reply.err), [call])
  }

  // ---------------------------------------------------------------------------
  // Stores

  /** The name lookup failed with an error other than "store not found"
      (recognised, as the source does, by comparing the message text). */
  predicate LookupFails(repo: Oracle, name: string) {
    var r := repo.getStore(name);
    r.err.Some? && r.err.value != repo.notFoundStore
  }

  /** The name lookup returned a store and no error that stops `Create`. */
  predicate LookupFinds(repo: Oracle, name: string) {
    !LookupFails(repo, name) && repo.getStore(name).value.Some?
  }

  /** The record `Create` hands to the repository: no id yet, the name as
      given, and the access URL built from the lower-cased name. */
  function NewStore(impl: Impl, name: string): (s: Store)
    ensures s.id == "" && s.name == name
    ensures |s.urlName| == |BaseURL(impl)| + 1 + |name|
    ensures s.urlName[..|BaseURL(impl)| + 1] == BaseURL(impl) + "/"
    ensures s.urlName[|BaseURL(impl)| + 1..] == Text.ToLower(name)
  {
    Store("", name, Urls.StoreURL(BaseURL(impl), name))
  }

  function Create(impl: Impl, repo: Oracle, name: string): (o: Outcome<Option<Store>>)
    ensures name == "" ==> Rejects(o, None, ErrorArgumentNotValidAddStore)
    ensures name != "" ==> |o.calls| >= 1 && o.calls[0] == GetStoreCall(name)
    ensures name != "" && LookupFails(repo, name) ==>
              o == Outcome(None, Lift(repo.getStore(name).err), [GetStoreCall(name)])
    ensures o.err == Some(StoreExists) <==> name != "" && LookupFinds(repo, name)
    ensures o.err == Some(StoreExists) ==> o.calls == [GetStoreCall(name)] && o.value == None
    ensures (exists c :: c in o.calls && c.CreateCall?) <==>
              name != "" && !LookupFails(repo, name) && !LookupFinds(repo, name)
    ensures name != "" && !LookupFails(repo, name) && !LookupFinds(repo, name) ==>
              o.calls == [GetStoreCall(name), CreateCall(NewStore(impl, name))]
    ensures forall c :: c in o.calls && c.CreateCall? ==>
              && c.store.id == ""
              && c.store.name == name
              && c.store.urlName == BaseURL(impl) + "/" + Text.ToLower(name)
    ensures |o.calls| == 2 ==>
              o.calls[1].CreateCall? &&
              var created := repo.create(o.calls[1].store);
              o.err == Lift(created.err) && o.value == (if created.err.Some? then None else created.value)
  {
    if name == "" then Reject(None, ErrorArgumentNotValidAddStore)
    else
      var lookup := repo.getStore(name);
      if lookup.err.Some? && lookup.err.value != repo.notFoundStore then
        Outcome(None, Lift(lookup.err), [GetStoreCall(name)])
      else if lookup.value.Some? then
        Outcome(None, Some(StoreExists), [GetStoreCall(name)])
      else
        var record := NewStore(impl, name);
        var created := repo.create(record);
        var calls := [GetStoreCall(name), CreateCall(record)];
        assert calls[1] in calls && calls[1].CreateCall?;
        Outcome(if created.err.Some? then None else created.value, Lift(created.err), calls)
  }

  function RemoveStore(repo: Oracle, id: string): (o: Outcome<()>)
    ensures id == "" ==> Rejects(o, (), ErrorArgumentNotValidRemoveStore)
    ensures id != "" ==> Forwards(o, RemoveStoreCall(id), repo.removeStore(id), ())
  {
    if id == "" then Reject((), ErrorArgumentNotValidRemoveStore)
    else Forward(RemoveStoreCall(id), repo.removeStore(id), ())
  }

  function GetAllStores(repo: Oracle): (o: Outcome<seq<string>>)
    ensures Forwards(o, GetAllStoresCall, repo.getAllStores, [])
  {
    Forward(GetAllStoresCall, repo.getAllStores, [])
  }

  function GetStore(repo: Oracle, name: string): (o: Outcome<Option<Store>>)
    ensures name == "" ==> Rejects(o, None, ErrorArgumentNotValidGetStore)
    ensures name != "" ==> Forwards(o, GetStoreCall(name), repo.getStore(name), None)
  {
    if name == "" then Reject(None, ErrorArgumentNotValidGetStore)
    else Forward(GetStoreCall(name), repo.getStore(name), None)
  }

  /** Rejects an empty id with the same message as `GetStore`. */
  function GetStoreByID(repo: Oracle, id: string): (o: Outcome<Option<Store>>)
    ensures id == "" ==> Rejects(o, None, ErrorArgumentNotValidGetStore)
    ensures id != "" ==> Forwards(o, GetStoreByIDCall(id), repo.getStoreByID(id), None)
  {
    if id == "" then Reject(None, ErrorArgumentNotValidGetStore)
    else Forward(GetStoreByIDCall(id), repo.getStoreByID(id), None)
  }

  // ---------------------------------------------------------------------------
  // Consumers

  /** The record `AddConsumer` hands to the repository; `rand` stands for the
      value of the freshly seeded `rand.Int()`. */
  function NewConsumer(name: string, phone: string, status: string, rand: nat): (c: Consumer)
    ensures c.name == name && c.phone == phone && c.status == status
    ensures Text.Canonical(c.accessKey) && Text.DecimalValue(c.accessKey) == rand
  {
    Text.ItoaRoundTrip(rand);
    Consumer(name, phone, Text.Itoa(rand), status)
  }

  /** `AddConsumer` reads the access URL of the store `GetStoreByID` returns
      without checking it for nil, so the repository must not answer that
      lookup with neither a store nor an error. */
  predicate AddConsumerSafe(repo: Oracle, id: string, name: string, phone: string, status: string, rand: nat) {
    id != "" && name != "" && phone != "" &&
    repo.addConsumer(id, NewConsumer(name, phone, status, rand)).err.None? &&
    repo.getStoreByID(id).err.None?
    ==> repo.getStoreByID(id).value.Some?
  }

  function AddConsumer(repo: Oracle, id: string, name: string, phone: string, status: string, rand: nat): (o: Outcome<string>)
    requires AddConsumerSafe(repo, id, name, phone, status, rand)
    ensures (id == "" || name == "" || phone == "") <==> o.calls == []
    ensures o.calls == [] ==> Rejects(o, "", ErrorArgumentNotValidAddConsumer)
    ensures o.calls != [] ==>
              && o.calls[0].AddConsumerCall?
              && o.calls[0].id == id
              && o.calls[0].consumer.name == name
              && o.calls[0].consumer.phone == phone
              && o.calls[0].consumer.status == status
              && Text.Canonical(o.calls[0].consumer.accessKey)
              && Text.DecimalValue(o.calls[0].consumer.accessKey) == rand
    ensures o.calls != [] && repo.addConsumer(id, o.calls[0].consumer).err.Some? ==>
              o == Outcome("", Lift(repo.addConsumer(id, o.calls[0].consumer).err), [o.calls[0]])
    ensures o.calls != [] && repo.addConsumer(id, o.calls[0].consumer).err.None? ==>
              && o.calls == [o.calls[0], GetStoreByIDCall(id)]
              && o.err == Lift(repo.getStoreByID(id).err)
    ensures o.err.Some? ==> o.value == ""
    ensures o.err.None? ==>
              |o.calls| == 2 && repo.getStoreByID(id).value.Some? &&
              o.value == repo.getStoreByID(id).value.value.urlName + "/" + o.calls[0].consumer.accessKey
  {
    if id == "" || name == "" || phone == "" then Reject("", ErrorArgumentNotValidAddConsumer)
    else
      var consumer := NewConsumer(name, phone, status, rand);
      var added := repo.addConsumer(id, consumer);
      Text.ItoaRoundTrip(rand);
      if added.err.Some? then
        Outcome("", Lift(added.err), [AddConsumerCall(id, consumer)])
      else
        var found := repo.getStoreByID(id);
        var calls := [AddConsumerCall(id, consumer), GetStoreByIDCall(id)];
        if found.err.Some? then Outcome("", Lift(found.err), calls)
        else Outcome(Urls.TicketURL(found.value.value.urlName, consumer.accessKey), None, calls)
  }

  function RemoveConsumer(repo: Oracle, id: string, phone: string): (o: Outcome<()>)
    ensures id == "" || phone == "" ==> Rejects(o, (), ErrorArgumentNotValidRemoveConsumer)
    ensures id != "" && phone != "" ==>
              Forwards(o, RemoveConsumerCall(id, phone), repo.removeConsumer(id, phone), ())
  {
    if id == "" || phone == "" then Reject((), ErrorArgumentNotValidRemoveConsumer)
    else Forward(RemoveConsumerCall(id, phone), repo.removeConsumer(id, phone), ())
  }

  function GetConsumer(repo: Oracle, id: string, phone: string): (o: Outcome<Placement>)
    ensures id == "" || phone == "" ==> Rejects(o, NoPlacement, ErrorArgumentNotValidGetConsumer)
    ensures id != "" && phone != "" ==>
              Forwards(o, GetConsumerCall(id, phone), repo.getConsumer(id, phone), NoPlacement)
    ensures o.err.Some? ==> o.value.position == -1 && o.value.consumer.None?
  {
    if id == "" || phone == "" then Reject(NoPlacement, ErrorArgumentNotValidGetConsumer)
    else Forward(GetConsumerCall(id, phone), repo.getConsumer(id, phone), NoPlacement)
  }

  /** Rejects an empty id with the same message as `GetConsumer`. */
  function GetAllConsumers(repo: Oracle, id: string): (o: Outcome<seq<Consumer>>)
    ensures id == "" ==> Rejects(o, [], ErrorArgumentNotValidGetConsumer)
    ensures id != "" ==> Forwards(o, GetAllConsumersCall(id), repo.getAllConsumers(id), [])
  {
    if id == "" then Reject([], ErrorArgumentNotValidGetConsumer)
    else Forward(GetAllConsumersCall(id), repo.getAllConsumers(id), [])
  }

  /** The repository call behind `ValidateConsumer`: its own in
      `StoreServiceImpl`, `GetConsumer` with the store name and key in
      `StoreMockServiceImpl`. */
  function ValidateCall(impl: Impl, storeName: string, accessKey: string): Call {
    match impl
    case StoreServiceImpl => ValidateConsumerCall(storeName, accessKey)
    case StoreMockServiceImpl => GetConsumerCall(storeName, accessKey)
  }

  function ValidateConsumer(impl: Impl, repo: Oracle, storeName: string, accessKey: string): (o: Outcome<Placement>)
    ensures storeName == "" || accessKey == "" ==>
              Rejects(o, NoPlacement, ErrorArgumentNotValidValidateConsumer)
    ensures storeName != "" && accessKey != "" && impl.StoreServiceImpl? ==>
              Forwards(o, ValidateConsumerCall(storeName, accessKey),
                       repo.validateConsumer(storeName, accessKey), NoPlacement)
    ensures storeName != "" && accessKey != "" && impl.StoreMockServiceImpl? ==>
              Forwards(o, GetConsumerCall(storeName, accessKey),
                       repo.getConsumer(storeName, accessKey), NoPlacement)
    ensures o.err.Some? ==> o.value.position == -1 && o.value.consumer.None?
  {
    if storeName == "" || accessKey == "" then Reject(NoPlacement, ErrorArgumentNotValidValidateConsumer)
    else
      var reply := match impl
        case StoreServiceImpl => repo.validateConsumer(storeName, accessKey)
        case StoreMockServiceImpl => repo.getConsumer(storeName, accessKey);
      Forward(ValidateCall(impl, storeName, accessKey), reply, NoPlacement)
  }

  // ---------------------------------------------------------------------------
  // The service interface as one entry point

  /** One call of the `StoreService` interface, with its arguments; `rand`
      stands for the random value `AddConsumer` draws. */
  datatype Request =
    | CreateRequest(name: string)
    | RemoveStoreRequest(id: string)
    | GetAllStoresRequest
    | GetStoreRequest(name: string)
    | GetStoreByIDRequest(id: string)
    | AddConsumerRequest(id: string, name: string, phone: string, status: string, rand: nat)
    | RemoveConsumerRequest(id: string, phone: string)
    | GetConsumerRequest(id: string, phone: string)
    | GetAllConsumersRequest(id: string)
    | ValidateConsumerRequest(storeName: string, accessKey: string)

  datatype Response =
    | StoreResponse(store: Option<Store>)
    | Done
    | StoreNames(names: seq<string>)
    | Ticket(url: string)
    | Position(placement: Placement)
    | ConsumerList(consumers: seq<Consumer>)

  predicate Servable(repo: Oracle, req: Request) {
    req.AddConsumerRequest? ==>
      AddConsumerSafe(repo, req.id, req.name, req.phone, req.status, req.rand)
  }

  function Serve(impl: Impl, repo: Oracle, req: Request): (o: Outcome<Response>)
    requires Servable(repo, req)
    ensures |o.calls| <= 2
    ensures |o.calls| == 2 ==> req.CreateRequest? || req.AddConsumerRequest?
  {
    match req
    case CreateRequest(name) =>
      var o := Create(impl, repo, name);
      Outcome(StoreResponse(o.value), o.err, o.calls)
    case RemoveStoreRequest(id) =>
      var o := RemoveStore(repo, id);
      Outcome(Done, o.err, o.calls)
    case GetAllStoresRequest =>
      var o := GetAllStores(repo);
      Outcome(StoreNames(o.value), o.err, o.calls)
    case GetStoreRequest(name) =>
      var o := GetStore(repo, name);
      Outcome(StoreResponse(o.value), o.err, o.calls)
    case GetStoreByIDRequest(id) =>
      var o := GetStoreByID(repo, id);
      Outcome(StoreResponse(o.value), o.err, o.calls)
    case AddConsumerRequest(id, name, phone, status, rand) =>
      var o := AddConsumer(repo, id, name, phone, status, rand);
      Outcome(Ticket(o.value), o.err, o.calls)
    case RemoveConsumerRequest(id, phone) =>
      var o := RemoveConsumer(repo, id, phone);
      Outcome(Done, o.err, o.calls)
    case GetConsumerRequest(id, phone) =>
      var o := GetConsumer(repo, id, phone);
      Outcome(Position(o.value), o.err, o.calls)
    case GetAllConsumersRequest(id) =>
      var o := GetAllConsumers(repo, id);
      Outcome(ConsumerList(o.value), o.err, o.calls)
    case ValidateConsumerRequest(storeName, accessKey) =>
      var o := ValidateConsumer(impl, repo, storeName, accessKey);
      Outcome(Position(o.value), o.err, o.calls)
  }
}
