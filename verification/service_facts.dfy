/**
  Properties of the store service that hold across its operations, stated
  over `Service.Serve` against an independent table of each operation's
  required arguments, and properties relating the two implementations.
 */
module ServiceFacts {
  import opened Domain
  import opened Repository
  import opened Service
  import Text
  import Urls

  /** The arguments each operation requires to be non-empty; `AddConsumer`
      accepts an empty status and `GetAllStores` takes no argument. */
  function Required(req: Request): seq<string> {
    match req
    case CreateRequest(name) => [name]
    case RemoveStoreRequest(id) => [id]
    case GetAllStoresRequest => []
    case GetStoreRequest(name) => [name]
    case GetStoreByIDRequest(id) => [id]
    case AddConsumerRequest(id, name, phone, _, _) => [id, name, phone]
    case RemoveConsumerRequest(id, phone) => [id, phone]
    case GetConsumerRequest(id, phone) => [id, phone]
    case GetAllConsumersRequest(id) => [id]
    case ValidateConsumerRequest(storeName, accessKey) => [storeName, accessKey]
  }

  /** The message of each operation's argument error. `GetStoreByID` reuses
      the `GetStore` message and `GetAllConsumers` the `GetConsumer` one. */
  function ValidationMessage(req: Request): string
    requires !req.GetAllStoresRequest?
  {
    match req
    case CreateRequest(_) => ErrorArgumentNotValidAddStore
    case RemoveStoreRequest(_) => ErrorArgumentNotValidRemoveStore
    case GetStoreRequest(_) => ErrorArgumentNotValidGetStore
    case GetStoreByIDRequest(_) => ErrorArgumentNotValidGetStore
    case AddConsumerRequest(_, _, _, _, _) => ErrorArgumentNotValidAddConsumer
    case RemoveConsumerRequest(_, _) => ErrorArgumentNotValidRemoveConsumer
    case GetConsumerRequest(_, _) => ErrorArgumentNotValidGetConsumer
    case GetAllConsumersRequest(_) => ErrorArgumentNotValidGetConsumer
    case ValidateConsumerRequest(_, _) => ErrorArgumentNotValidValidateConsumer
  }

  /** The value each operation returns beside an error: nil, "", an empty
      list, or position -1 with no consumer. */
  function ZeroResponse(req: Request): Response {
    match req
    case CreateRequest(_) => StoreResponse(None)
    case RemoveStoreRequest(_) => Done
    case GetAllStoresRequest => StoreNames([])
    case GetStoreRequest(_) => StoreResponse(None)
    case GetStoreByIDRequest(_) => StoreResponse(None)
    case AddConsumerRequest(_, _, _, _, _) => Ticket("")
    case RemoveConsumerRequest(_, _) => Done
    case GetConsumerRequest(_, _) => Position(NoPlacement)
    case GetAllConsumersRequest(_) => ConsumerList([])
    case ValidateConsumerRequest(_, _) => Position(NoPlacement)
  }

  /** An operation makes no repository call exactly when a required argument
      is empty, and then it returns that operation's argument error; an
      `InvalidArgument` error never comes from anywhere else. */
  lemma ValidationShortCircuits(impl: Impl, repo: Oracle, req: Request)
    requires Servable(repo, req)
    ensures Serve(impl, repo, req).calls == [] <==> "" in Required(req)
    ensures "" in Required(req) ==>
              Serve(impl, repo, req) ==
              Outcome(ZeroResponse(req), Some(InvalidArgument(ValidationMessage(req))), [])
    ensures (Serve(impl, repo, req).err.Some? && Serve(impl, repo, req).err.value.InvalidArgument?)
            <==> "" in Required(req)
  {
  }

  /** Every failed operation returns the zero value of its result. */
  lemma ZeroValueOnError(impl: Impl, repo: Oracle, req: Request)
    requires Servable(repo, req)
    ensures Serve(impl, repo, req).err.Some? ==> Serve(impl, repo, req).value == ZeroResponse(req)
  {
  }

  /** A repository error the service returns is, unchanged, the error of the
      last repository call it made. */
  lemma RepositoryErrorsPassThrough(impl: Impl, repo: Oracle, req: Request)
    requires Servable(repo, req)
    ensures var o := Serve(impl, repo, req);
            o.err.Some? && o.err.value.Repository? ==>
              |o.calls| > 0 && CallError(repo, o.calls[|o.calls| - 1]) == Some(o.err.value.msg)
  {
  }

  /** A repository error stops the operation and is returned unchanged. The
      one exception is `Create`'s name lookup failing with the repository's
      "store not found" text, which `Create` treats as absence. */
  lemma NoRepositoryErrorSwallowed(impl: Impl, repo: Oracle, req: Request)
    requires Servable(repo, req)
    ensures var o := Serve(impl, repo, req);
            forall i :: 0 <= i < |o.calls| && CallError(repo, o.calls[i]).Some? ==>
              || (i == |o.calls| - 1 && o.err == Lift(CallError(repo, o.calls[i])))
              || (req.CreateRequest? && i == 0 && CallError(repo, o.calls[i]) == Some(repo.notFoundStore))
  {
    var o := Serve(impl, repo, req);
    if req.AddConsumerRequest? && |o.calls| == 2 {
      assert CallError(repo, o.calls[0]).None?;
    }
  }

  /** Apart from `Create` and `ValidateConsumer`, the two implementations
      behave identically. */
  lemma MockMatchesLive(repo: Oracle, req: Request)
    requires Servable(repo, req)
    requires !req.CreateRequest? && !req.ValidateConsumerRequest?
    ensures Serve(StoreMockServiceImpl, repo, req) == Serve(StoreServiceImpl, repo, req)
  {
  }

  /** The two `Create`s take the same decisions; they differ only in the base
      of the access URL in the record handed to the repository. */
  lemma CreateImplsDiffer(repo: Oracle, name: string)
    ensures var live := Create(StoreServiceImpl, repo, name);
            var mock := Create(StoreMockServiceImpl, repo, name);
            && |live.calls| == |mock.calls|
            && (|live.calls| < 2 ==> live == mock)
            && (|live.calls| == 2 ==>
                  && live.calls[1].store.urlName == "http://localhost:8080/mystore/" + Text.ToLower(name)
                  && mock.calls[1].store.urlName == "http://app.filas.com/" + Text.ToLower(name)
                  && live.calls[1].store.(urlName := "") == mock.calls[1].store.(urlName := ""))
  {
    var live := Create(StoreServiceImpl, repo, name);
    var mock := Create(StoreMockServiceImpl, repo, name);
    if name != "" && !LookupFails(repo, name) && !LookupFinds(repo, name) {
      assert live.calls[1] == CreateCall(NewStore(StoreServiceImpl, name));
      assert mock.calls[1] == CreateCall(NewStore(StoreMockServiceImpl, name));
    } else {
      assert live == mock;
    }
  }

  /** With both arguments present, the mock's `ValidateConsumer` is exactly
      the repository's `GetConsumer` on store name and access key, as the
      service's `GetConsumer` would forward it; only the argument error
      message differs. */
  lemma MockValidateIsGetConsumer(repo: Oracle, storeName: string, accessKey: string)
    ensures storeName != "" && accessKey != "" ==>
              ValidateConsumer(StoreMockServiceImpl, repo, storeName, accessKey) ==
              GetConsumer(repo, storeName, accessKey)
    ensures storeName == "" || accessKey == "" ==>
              && ValidateConsumer(StoreMockServiceImpl, repo, storeName, accessKey).err ==
                 Some(InvalidArgument(ErrorArgumentNotValidValidateConsumer))
              && GetConsumer(repo, storeName, accessKey).err ==
                 Some(InvalidArgument(ErrorArgumentNotValidGetConsumer))
  {
  }

  /** A successful `AddConsumer` returns a ticket URL that splits back into
      the store's access URL and the consumer's access key; the key is a
      canonical decimal numeral that reads back as the random draw. */
  lemma AddConsumerTicket(repo: Oracle, id: string, name: string, phone: string, status: string, rand: nat)
    requires AddConsumerSafe(repo, id, name, phone, status, rand)
    requires AddConsumer(repo, id, name, phone, status, rand).err.None?
    ensures var o := AddConsumer(repo, id, name, phone, status, rand);
            var key := Urls.LastSegment(o.value);
            && key == o.calls[0].consumer.accessKey
            && Text.Canonical(key)
            && Text.DecimalValue(key) == rand
            && o.value == repo.getStoreByID(id).value.value.urlName + "/" + key
  {
    var o := AddConsumer(repo, id, name, phone, status, rand);
    var key := o.calls[0].consumer.accessKey;
    assert '/' !in key by {
      forall i | 0 <= i < |key|
        ensures key[i] != '/'
      {
        assert Text.IsDigit(key[i]);
      }
    }
    Urls.LastSegmentAfterSlash(repo.getStoreByID(id).value.value.urlName, key);
  }

  /** Two consumers whose random draws differ get different access keys. */
  lemma AccessKeysFollowDraws(repo: Oracle, id: string, name: string, phone: string, status: string,
                              rand1: nat, rand2: nat)
    requires id != "" && name != "" && phone != ""
    requires AddConsumerSafe(repo, id, name, phone, status, rand1)
    requires AddConsumerSafe(repo, id, name, phone, status, rand2)
    ensures AddConsumer(repo, id, name, phone, status, rand1).calls[0].consumer.accessKey ==
            AddConsumer(repo, id, name, phone, status, rand2).calls[0].consumer.accessKey
            <==> rand1 == rand2
  {
    Text.ItoaInjective(rand1, rand2);
  }
}
