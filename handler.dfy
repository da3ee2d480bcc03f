/** The HTTP boundary for player records, for the part that decides: which
    status a service error is answered with, and which malformed requests are
    answered with 400 before the service is reached. Decoding, routing and the
    response writes themselves are not modelled. */
module Handler {

  import opened Base
  import opened Errors
  import opened Players
  import Mongo
  import Storage
  import Service

  const StatusOK: int := 200
  const StatusBadRequest: int := 400
  const StatusNotFound: int := 404
  const StatusConflict: int := 409
  const StatusInternalServerError: int := 500

  /** `writeServiceErr`: the status a service error is answered with. It is
      always one of 404, 409 and 500, never a success and never 400. */
  function ServiceErrStatus(e: Error): (status: int)
    ensures status == StatusNotFound || status == StatusConflict || status == StatusInternalServerError
  {
    if IsKind(e, NotFound) then StatusNotFound
    else if IsKind(e, Conflict) then StatusConflict
    else if IsKind(e, VersionMismatch) then StatusConflict
    else StatusInternalServerError
  }

  /** The status depends only on the kinds an error carries: NotFound is 404,
      Conflict and VersionMismatch are 409, anything else (IDMismatch,
      EmptyRequest, errors with no kind) is 500; wrapping changes nothing. */
  lemma ServiceErrStatusByKind(e: Error, context: string)
    ensures ServiceErrStatus(e) == StatusNotFound <==> IsKind(e, NotFound)
    ensures ServiceErrStatus(e) == StatusConflict <==>
      !IsKind(e, NotFound) && (IsKind(e, Conflict) || IsKind(e, VersionMismatch))
    ensures ServiceErrStatus(e) == StatusInternalServerError <==>
      !IsKind(e, NotFound) && !IsKind(e, Conflict) && !IsKind(e, VersionMismatch)
    ensures ServiceErrStatus(Wrapped(context, e)) == ServiceErrStatus(e)
    ensures ServiceErrStatus(Sentinel(NotFound)) == StatusNotFound
    ensures ServiceErrStatus(Sentinel(Conflict)) == StatusConflict
    ensures ServiceErrStatus(Sentinel(VersionMismatch)) == StatusConflict
    ensures ServiceErrStatus(Sentinel(IDMismatch)) == StatusInternalServerError
    ensures ServiceErrStatus(Sentinel(EmptyRequest)) == StatusInternalServerError
  {
  }

  /** A store failure the storage engine did not classify is answered with 500. */
  lemma ForeignIsServerError(e: Error)
    requires Foreign(e)
    ensures ServiceErrStatus(e) == StatusInternalServerError
  {
    ForeignHasNoKind(e, NotFound);
    ForeignHasNoKind(e, Conflict);
    ForeignHasNoKind(e, VersionMismatch);
  }

  /** End to end from a driver failure: a no-documents failure is answered with
      404, a duplicate-key failure with 409, anything else with 500, however the
      service wraps the classified error. */
  lemma DriverFailureStatus(e: Error, context: string)
    requires Foreign(e)
    ensures var status := ServiceErrStatus(Wrapped(context, Storage.ConvertErr(e)));
      && (Is(e, NoDocuments) ==> status == StatusNotFound)
      && (!Is(e, NoDocuments) && Is(e, DuplicateKey) ==> status == StatusConflict)
      && (!Is(e, NoDocuments) && !Is(e, DuplicateKey) ==> status == StatusInternalServerError)
  {
    Storage.ConvertErrClassifies(e);
    if !Is(e, NoDocuments) && !Is(e, DuplicateKey) {
      ForeignIsServerError(e);
    }
  }

  /** The JSON body of a create or update request. */
  datatype PlayerRequest = PlayerRequest(name: string, email: string)

  /** The query of a filter request. */
  datatype FilterQuery = FilterQuery(name: string, email: string, offset: Uint64, limit: Uint64)

  /** The service call a request leads to. */
  datatype Call =
    | CreateCall(email: string, name: string)
    | ReadCall(id: Id)
    | UpdateCall(id: Id, email: string, name: string)
    | DeleteCall(id: Id)
    | FilterCall(req: FilterRequest, offset: Uint64, limit: Uint64)

  datatype Body =
    | PlayerBody(player: PlayerJSON)
    | PlayersBody(players: seq<PlayerJSON>)
    | FilterBody(total: nat, players: seq<PlayerJSON>)
    | ErrorBody(error: Error)
    | EmptyObject

  datatype Reply = Reply(status: int, body: Body)

  /** What a handler does before the service: answer at once, or make a call. */
  datatype Plan = Respond(reply: Reply) | Invoke(call: Call)

  function BadRequest(e: Error): Plan
  {
    Respond(Reply(StatusBadRequest, ErrorBody(e)))
  }

  /** `create`: the body is decoded first. */
  function PlanCreate(body: Result<PlayerRequest>): Plan
  {
    if body.Err? then BadRequest(Wrapped("unmarshal request body", body.error))
    else Invoke(CreateCall(body.value.email, body.value.name))
  }

  /** `read`: the path id is parsed first. */
  function PlanRead(id: Result<Id>): Plan
  {
    if id.Err? then BadRequest(Wrapped("parse id", id.error)) else Invoke(ReadCall(id.value))
  }

  /** `update`: the body is decoded before the path id is parsed. */
  function PlanUpdate(body: Result<PlayerRequest>, id: Result<Id>): Plan
  {
    if body.Err? then BadRequest(Wrapped("unmarshal request body", body.error))
    else if id.Err? then BadRequest(Wrapped("parse id", id.error))
    else Invoke(UpdateCall(id.value, body.value.email, body.value.name))
  }

  /** `delete`: the parse error is sent as it is, unwrapped. */
  function PlanDelete(id: Result<Id>): Plan
  {
    if id.Err? then BadRequest(id.error) else Invoke(DeleteCall(id.value))
  }

  /** `filter`: the query is decoded first. */
  function PlanFilter(query: Result<FilterQuery>): Plan
  {
    if query.Err? then BadRequest(Wrapped("decode query", query.error))
    else Invoke(FilterCall(FilterRequest(query.value.name, query.value.email), query.value.offset, query.value.limit))
  }

  function ErrorReply(e: Error): Reply
  {
    Reply(ServiceErrStatus(e), ErrorBody(e))
  }

  /** The reply to a create, read or update call. */
  function PlayerReply(r: Result<Player>): Reply
  {
    if r.Err? then ErrorReply(r.error) else Reply(StatusOK, PlayerBody(MarshalJSON(r.value)))
  }

  function DeleteReply(r: Result<()>): Reply
  {
    if r.Err? then ErrorReply(r.error) else Reply(StatusOK, EmptyObject)
  }

  function MarshalAll(ps: seq<Player>): (js: seq<PlayerJSON>)
    ensures |js| == |ps| && forall i :: 0 <= i < |ps| ==> js[i] == MarshalJSON(ps[i])
  {
    if ps == [] then [] else [MarshalJSON(ps[0])] + MarshalAll(ps[1..])
  }

  function ListReply(r: Result<seq<Player>>): Reply
  {
    if r.Err? then ErrorReply(r.error) else Reply(StatusOK, PlayersBody(MarshalAll(r.value)))
  }

  function FilterReply(r: Result<(nat, seq<Player>)>): Reply
  {
    if r.Err? then ErrorReply(r.error) else Reply(StatusOK, FilterBody(r.value.0, MarshalAll(r.value.1)))
  }

  /** `create`: a body that does not decode is answered with 400 and the
      wrapped decode error, with no service call; a decoded body passes its
      email and name on as they are. */
  lemma CreatePlan(body: Result<PlayerRequest>)
    ensures PlanCreate(body).Respond? <==> body.Err?
    ensures body.Err? ==> PlanCreate(body).reply == Reply(StatusBadRequest, ErrorBody(Wrapped("unmarshal request body", body.error)))
    ensures body.Ok? ==> PlanCreate(body).call == CreateCall(body.value.email, body.value.name)
  {
  }

  /** `read`: an id that does not parse is answered with 400, with no service
      call; a parsed id is read. */
  lemma ReadPlan(id: Result<Id>)
    ensures PlanRead(id).Respond? <==> id.Err?
    ensures id.Err? ==> PlanRead(id).reply == Reply(StatusBadRequest, ErrorBody(Wrapped("parse id", id.error)))
    ensures id.Ok? ==> PlanRead(id).call == ReadCall(id.value)
  {
  }

  /** `update`: 400 when the body or the id is malformed, reporting the body's
      error when both are; otherwise the call for the parsed id and the
      decoded fields. */
  lemma UpdatePlan(body: Result<PlayerRequest>, id: Result<Id>)
    ensures PlanUpdate(body, id).Respond? <==> body.Err? || id.Err?
    ensures body.Err? ==> PlanUpdate(body, id).reply == Reply(StatusBadRequest, ErrorBody(Wrapped("unmarshal request body", body.error)))
    ensures body.Ok? && id.Err? ==> PlanUpdate(body, id).reply == Reply(StatusBadRequest, ErrorBody(Wrapped("parse id", id.error)))
    ensures body.Ok? && id.Ok? ==> PlanUpdate(body, id).call == UpdateCall(id.value, body.value.email, body.value.name)
  {
  }

  /** `delete`: an id that does not parse is answered with 400 and the parse
      error itself, unwrapped; a parsed id is deleted. */
  lemma DeletePlan(id: Result<Id>)
    ensures PlanDelete(id).Respond? <==> id.Err?
    ensures id.Err? ==> PlanDelete(id).reply == Reply(StatusBadRequest, ErrorBody(id.error))
    ensures id.Ok? ==> PlanDelete(id).call == DeleteCall(id.value)
  {
  }

  /** `filter`: a query that does not decode is answered with 400, with no
      service call; a decoded one passes its name and email as the filter
      request and its offset and limit as they are. */
  lemma FilterPlan(query: Result<FilterQuery>)
    ensures PlanFilter(query).Respond? <==> query.Err?
    ensures query.Err? ==> PlanFilter(query).reply == Reply(StatusBadRequest, ErrorBody(Wrapped("decode query", query.error)))
    ensures query.Ok? ==>
      PlanFilter(query).call == FilterCall(FilterRequest(query.value.name, query.value.email), query.value.offset, query.value.limit)
  {
  }

  /** A read, end to end: a stored record is sent as its JSON form with 200,
      an absent id gets 404 and NotFound, and a store failure gets the status
      of its classification. */
  lemma ReadReplies(db: Mongo.Db, id: Id, fault: Option<Fault>)
    requires Mongo.Consistent(db)
    ensures var reply := PlayerReply(Storage.GetSpec(db, id, fault));
      && (fault.None? && id in db.docs ==> reply == Reply(StatusOK, PlayerBody(MarshalJSON(db.docs[id]))))
      && (fault.None? && id !in db.docs ==> reply == Reply(StatusNotFound, ErrorBody(Sentinel(NotFound))))
      && (fault.Some? ==> reply.body == ErrorBody(Storage.ConvertErr(fault.value)))
      && (fault.Some? && Is(fault.value, NoDocuments) ==> reply.status == StatusNotFound)
      && (fault.Some? && !Is(fault.value, NoDocuments) && Is(fault.value, DuplicateKey) ==> reply.status == StatusConflict)
      && (fault.Some? && !Is(fault.value, NoDocuments) && !Is(fault.value, DuplicateKey) ==>
            reply.status == StatusInternalServerError)
  {
    Storage.GetByIdEffect(db, id, fault);
    if fault.Some? {
      DriverFailureStatus(fault.value, "");
      ServiceErrStatusByKind(Storage.ConvertErr(fault.value), "");
    }
  }

  /** A delete, end to end: a stored id is answered with 200 and an empty
      object; an absent one with 404 and NotFound wrapped "delete player". */
  lemma DeleteReplies(db: Mongo.Db, id: Id, uniqueEmail: bool)
    requires Mongo.Indexed(db, uniqueEmail)
    ensures var reply := DeleteReply(Service.ServiceDeleteSpec(db, id, None).result);
      && (id in db.docs ==> reply == Reply(StatusOK, EmptyObject))
      && (id !in db.docs ==> reply == Reply(StatusNotFound, ErrorBody(Wrapped("delete player", Sentinel(NotFound)))))
  {
    Storage.DeleteEffect(db, id, uniqueEmail, None);
  }

  /** A list, end to end: every stored record, in the collection's natural
      order, is sent as its JSON form with 200. */
  lemma ListReplies(db: Mongo.Db)
    requires Mongo.Consistent(db)
    ensures var reply := ListReply(Storage.AllSpec(db, None, None));
      && reply.status == StatusOK && reply.body.PlayersBody?
      && |reply.body.players| == |db.order|
      && forall i :: 0 <= i < |db.order| ==> reply.body.players[i] == MarshalJSON(db.docs[db.order[i]])
  {
    Storage.AllEffect(db, None, None);
  }

  /** A filter request with neither name nor email reaches the service and is
      answered with 500, although it is the client's request that is at fault:
      `writeServiceErr` has no case for EmptyRequest. */
  lemma EmptyFilterIsServerError(
    db: Mongo.Db, offset: Uint64, limit: Uint64,
    countFault: Option<Fault>, findFault: Option<Fault>, decodeFault: Option<Fault>)
    ensures FilterReply(Storage.FilterSpec(db, FilterRequest("", ""), offset, limit, countFault, findFault, decodeFault))
      == Reply(StatusInternalServerError, ErrorBody(Sentinel(EmptyRequest)))
  {
  }
}
