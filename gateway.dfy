/** The HTTP gateway of src/index.ts: the secret and authorization gate, then the
    routes over the status store.

    Route matching is an explicit match on the request's method and the shape of
    its path; the framework's context and response objects become the `Request`
    and `Response` values below. */
module Gateway {
  import opened StatusModel

  /** The name of a request method other than the five the routes name. */
  type OtherMethod = name: string | name !in {"GET", "HEAD", "POST", "PUT", "DELETE"} witness "PATCH"

  /** Request methods. `Other` stands for every method not named here. */
  datatype Verb = GET | HEAD | POST | PUT | DELETE | Other(name: OtherMethod)

  /** The path shapes the routes distinguish: `/statuses`, `/status`,
      `/status/:id` and anything else. */
  datatype Path = StatusesPath | StatusPath | ItemPath(id: string) | OtherPath

  /** A request: method, path, the `Authorization` header (if sent) and the parsed
      JSON body (`None` for a body that is `null`). */
  datatype Request = Request(verb: Verb, path: Path, authorization: Option<string>, body: Option<Param>)

  /** Response bodies: plain text, an error `{code, message}`, a bare `{message}`,
      `{statuses}`, `{status}` (the status may be undefined) and `{message, status}`. */
  datatype Payload =
    | Text(text: string)
    | Failure(code: string, message: string)
    | Notice(message: string)
    | Listed(statuses: seq<Status>)
    | Single(status: Option<Status>)
    | Confirmed(message: string, status: Option<Status>)

  datatype Response = Response(code: int, payload: Payload)

  /** A response together with the namespace the request leaves behind. */
  datatype Reply = Reply(response: Response, kv: Namespace)

  const SECRET_MISSING := "Secret is not defined. Please add STATUS_SECRET."
  const MISSING_FIELDS := "Please provide a title and body for the status."
  const CREATED := "Successfully created a new status."
  const UPDATED := "Status updated successfully."
  const DELETED := "Status deleted successfully."
  const NOT_FOUND := "Unable to find a status with that ID."
  const NOT_ALLOWED := "405 Method Not Allowed"
  const POST_ON_KEY := "POST not valid for individual keys. Did you mean PUT?"
  const UNSUPPORTED := "Unsupported method. Please use one of GET, PUT, POST, DELETE, HEAD."

  /** `checkAuth`: the header must equal the secret exactly; an absent header never does. */
  predicate CheckAuth(authorization: Option<string>, secret: string) {
    authorization == Some(secret)
  }

  /** `unauthorized`. */
  function Unauthorized(): Response {
    Response(401, Failure("401 Unauthorized", "Unauthorized"))
  }

  function SecretMissing(): Response {
    Response(200, Text(SECRET_MISSING))
  }

  function NotFound(): Response {
    Response(404, Failure("404 Not Found", NOT_FOUND))
  }

  /** The methods the gate lets through without authorization. */
  predicate IsSafe(v: Verb) {
    v == GET || v == HEAD
  }

  /** The method whose handlers serve `v`: the framework answers HEAD with the GET handlers. */
  function Served(v: Verb): Verb {
    if v == HEAD then GET else v
  }

  /** The first entry of the listing, undefined when there is none (`statuses[0]`). */
  function Latest(statuses: seq<Status>): (r: Option<Status>)
    ensures r.None? <==> statuses == []
    ensures r.Some? ==> r.value == statuses[0]
  {
    if statuses == [] then None else Some(statuses[0])
  }

  /** The whole request path: the middleware, then the first route that matches. */
  function Dispatch(kv: Namespace, req: Request, secret: Option<string>, uuid: string, now: string): (r: Reply)
    ensures secret.None? ==> r == Reply(SecretMissing(), kv)
    ensures secret.Some? && !IsSafe(req.verb) && !CheckAuth(req.authorization, secret.value) ==>
      r == Reply(Unauthorized(), kv)
    ensures IsSafe(req.verb) ==> r.kv == kv
    ensures kv.WellFormed() ==> r.kv.WellFormed()
  {
    if secret.None? then Reply(SecretMissing(), kv)
    else if !IsSafe(req.verb) && !CheckAuth(req.authorization, secret.value) then Reply(Unauthorized(), kv)
    else Route(kv, req, uuid, now)
  }

  /** The routes, tried in the order they are registered. */
  function Route(kv: Namespace, req: Request, uuid: string, now: string): (r: Reply)
    ensures IsSafe(req.verb) ==> r.kv == kv
    ensures kv.WellFormed() ==> r.kv.WellFormed()
  {
    var verb := Served(req.verb);
    if verb == GET && req.path == StatusesPath then
      Reply(Response(200, Listed(Listing(kv))), kv)
    else if verb == GET && req.path == StatusPath then
      Reply(Response(200, Single(Latest(Listing(kv)))), kv)
    else if verb == POST && req.path == StatusPath then
      if !IsValid(req.body) then Reply(Response(400, Notice(MISSING_FIELDS)), kv)
      else
        var created := Create(kv, req.body, uuid, now);
        Reply(Response(200, Confirmed(CREATED, created.result)), created.kv)
    else if verb == GET && req.path.ItemPath? then
      match Find(kv, req.path.id)
      case None => Reply(NotFound(), kv)
      case Some(status) => Reply(Response(200, Single(Some(status))), kv)
    else if verb == PUT && req.path.ItemPath? then
      match Find(kv, req.path.id)
      case None => Reply(NotFound(), kv)
      case Some(status) =>
        var updated := Update(kv, req.path.id, req.body);
        Reply(Response(200, Confirmed(UPDATED, Some(status))), updated.kv)
    else if verb == DELETE && req.path.ItemPath? then
      match Find(kv, req.path.id)
      case None => Reply(NotFound(), kv)
      case Some(status) =>
        var deleted := Delete(kv, req.path.id);
        Reply(Response(200, Confirmed(DELETED, Some(status))), deleted.kv)
    else if verb == POST then
      Reply(Response(405, Failure(NOT_ALLOWED, POST_ON_KEY)), kv)
    else
      Reply(Response(405, Failure(NOT_ALLOWED, UNSUPPORTED)), kv)
  }

  /** The application handling one request against `store`, with `uuid` and `now`
      standing for `crypto.randomUUID()` and the clock. */
  method Handle(store: StatusStore, req: Request, secret: Option<string>, uuid: string, now: string)
    returns (res: Response)
    requires store.Valid() && GenerateID(uuid) !in store.kv.entries
    modifies store
    ensures store.Valid()
    ensures Reply(res, store.kv) == Dispatch(old(store.kv), req, secret, uuid, now)
  {
    // the `app.use("*")` middleware
    if secret.None? {
      return SecretMissing();
    }
    if !IsSafe(req.verb) && !CheckAuth(req.authorization, secret.value) {
      return Unauthorized();
    }

    var verb := Served(req.verb);
    if verb == GET && req.path == StatusesPath {
      var statuses := store.GetStatuses();
      return Response(200, Listed(statuses));
    }
    if verb == GET && req.path == StatusPath {
      var statuses := store.GetStatuses();
      var latest := if |statuses| > 0 then Some(statuses[0]) else None;
      return Response(200, Single(latest));
    }
    if verb == POST && req.path == StatusPath {
      if !IsValid(req.body) {
        return Response(400, Notice(MISSING_FIELDS));
      }
      var status := store.CreateStatus(req.body, uuid, now);
      return Response(200, Confirmed(CREATED, status));
    }
    if verb == GET && req.path.ItemPath? {
      var status := store.GetStatus(req.path.id);
      if status.None? {
        return NotFound();
      }
      return Response(200, Single(status));
    }
    if verb == PUT && req.path.ItemPath? {
      var status := store.GetStatus(req.path.id);
      if status.None? {
        return NotFound();
      }
      // the result of the update is not looked at
      var _ := store.UpdateStatus(req.path.id, req.body);
      return Response(200, Confirmed(UPDATED, status));
    }
    if verb == DELETE && req.path.ItemPath? {
      var status := store.GetStatus(req.path.id);
      if status.None? {
        return NotFound();
      }
      var _ := store.DeleteStatus(req.path.id);
      return Response(200, Confirmed(DELETED, status));
    }
    if verb == POST {
      return Response(405, Failure(NOT_ALLOWED, POST_ON_KEY));
    }
    return Response(405, Failure(NOT_ALLOWED, UNSUPPORTED));
  }

  // ---------------------------------------------------------------------------
  // Properties of the gateway

  /** A request that passes the gate: the secret is configured, and the method is
      safe or carries the secret. */
  predicate Admitted(req: Request, secret: Option<string>) {
    secret.Some? && (IsSafe(req.verb) || CheckAuth(req.authorization, secret.value))
  }

  /** GET and HEAD are answered the same whatever Authorization header they carry. */
  lemma SafeIgnoresAuthorization(kv: Namespace, req: Request, secret: Option<string>, uuid: string, now: string,
                                 authorization: Option<string>)
    requires IsSafe(req.verb)
    ensures Dispatch(kv, req.(authorization := authorization), secret, uuid, now) == Dispatch(kv, req, secret, uuid, now)
  {
  }

  /** GET, PUT and DELETE on an identifier without a record answer 404 and change nothing. */
  lemma UnknownIdIsNotFound(kv: Namespace, req: Request, secret: Option<string>, uuid: string, now: string)
    requires Admitted(req, secret)
    requires req.verb in {GET, HEAD, PUT, DELETE} && req.path.ItemPath?
    requires Find(kv, req.path.id).None?
    ensures Dispatch(kv, req, secret, uuid, now) == Reply(NotFound(), kv)
  {
  }

  /** PUT on a known identifier answers 200 with the record as it was BEFORE the
      update. The record is updated when the body has a title and a body; when it
      does not, the answer is the same and nothing changes. */
  lemma PutAnswersWithSnapshotBefore(kv: Namespace, req: Request, secret: Option<string>, uuid: string, now: string)
    requires Admitted(req, secret) && req.verb == PUT && req.path.ItemPath?
    requires Find(kv, req.path.id).Some?
    ensures var r := Dispatch(kv, req, secret, uuid, now);
      && r.response == Response(200, Confirmed(UPDATED, Find(kv, req.path.id)))
      && (IsValid(req.body) ==>
            Find(r.kv, req.path.id) == Some(Find(kv, req.path.id).value.(title := req.body.value.title, body := req.body.value.body)))
      && (!IsValid(req.body) ==> r.kv == kv)
  {
  }

  /** DELETE on a known identifier answers 200 with the deleted record and removes
      exactly its key. */
  lemma DeleteAnswersWithSnapshotBefore(kv: Namespace, req: Request, secret: Option<string>, uuid: string, now: string)
    requires Admitted(req, secret) && req.verb == DELETE && req.path.ItemPath?
    requires Find(kv, req.path.id).Some?
    ensures var r := Dispatch(kv, req, secret, uuid, now);
      && r.response == Response(200, Confirmed(DELETED, Find(kv, req.path.id)))
      && r.kv.entries == kv.entries - {GenerateID(req.path.id)}
      && Find(r.kv, req.path.id).None?
  {
  }

  /** POST `/status` without a title and a body answers 400 and creates nothing;
      with both it answers 200 with the new record, which is then stored. */
  lemma PostCreates(kv: Namespace, req: Request, secret: Option<string>, uuid: string, now: string)
    requires Admitted(req, secret) && req.verb == POST && req.path == StatusPath
    ensures var r := Dispatch(kv, req, secret, uuid, now);
      && (!IsValid(req.body) ==> r == Reply(Response(400, Notice(MISSING_FIELDS)), kv))
      && (IsValid(req.body) ==>
            var status := Status(uuid, req.body.value.title, req.body.value.body, now);
            r.response == Response(200, Confirmed(CREATED, Some(status))) && Find(r.kv, uuid) == Some(status))
  {
  }

  /** GET `/status` answers 200 with the first listed record, and with an undefined
      status (still 200) when nothing is listed. */
  lemma LatestIsFirstListed(kv: Namespace, req: Request, secret: Option<string>, uuid: string, now: string)
    requires secret.Some? && IsSafe(req.verb) && req.path == StatusPath
    ensures var r := Dispatch(kv, req, secret, uuid, now);
      && r.response.code == 200 && r.response.payload.Single?
      && (r.response.payload.status.None? <==> Listing(kv) == [])
      && (Listing(kv) != [] ==> r.response.payload.status == Some(Listing(kv)[0]))
  {
  }

  /** POST anywhere but `/status` answers 405 "Did you mean PUT?"; every other
      unmatched method and path answers the generic 405. Neither changes anything. */
  lemma UnmatchedIs405(kv: Namespace, req: Request, secret: Option<string>, uuid: string, now: string)
    requires Admitted(req, secret)
    ensures req.verb == POST && req.path != StatusPath ==>
      Dispatch(kv, req, secret, uuid, now) == Reply(Response(405, Failure(NOT_ALLOWED, POST_ON_KEY)), kv)
    ensures (|| req.verb.Other?
             || (IsSafe(req.verb) && req.path == OtherPath)
             || (req.verb in {PUT, DELETE} && !req.path.ItemPath?)) ==>
      Dispatch(kv, req, secret, uuid, now) == Reply(Response(405, Failure(NOT_ALLOWED, UNSUPPORTED)), kv)
  {
  }

  /** The entries of the namespace outside the status keys. */
  function Foreign(kv: Namespace): map<string, Value> {
    map k | k in kv.entries && !HasPrefix(k) :: kv.entries[k]
  }

  lemma ForeignUnchanged(kv: Namespace, kv': Namespace, key: string)
    requires HasPrefix(key) && kv'.entries - {key} == kv.entries - {key}
    ensures Foreign(kv') == Foreign(kv)
  {
    forall k | !HasPrefix(k)
      ensures k in kv'.entries <==> k in kv.entries
      ensures k in kv.entries ==> kv'.entries[k] == kv.entries[k]
    {
      assert k in kv'.entries <==> k in kv'.entries - {key};
      assert k in kv.entries <==> k in kv.entries - {key};
      if k in kv.entries {
        assert kv.entries[k] == (kv.entries - {key})[k];
        assert kv'.entries[k] == (kv'.entries - {key})[k];
      }
    }
  }

  /** No request touches a key outside the status namespace, and no request changes
      the record of any identifier except the one it names (a created record's
      identifier is `uuid`). */
  lemma RequestsTouchOnlyTheirRecord(kv: Namespace, req: Request, secret: Option<string>, uuid: string, now: string)
    ensures Foreign(Dispatch(kv, req, secret, uuid, now).kv) == Foreign(kv)
    ensures forall id :: id != uuid && (!req.path.ItemPath? || id != req.path.id) ==>
      Find(Dispatch(kv, req, secret, uuid, now).kv, id) == Find(kv, id)
  {
    var r := Dispatch(kv, req, secret, uuid, now);
    if r.kv != kv {
      if req.path.ItemPath? && Served(req.verb) != POST {
        ForeignUnchanged(kv, r.kv, GenerateID(req.path.id));
      } else {
        ForeignUnchanged(kv, r.kv, GenerateID(uuid));
      }
    }
  }

  /** A created status is found afterwards: POST `/status` with a title and a body,
      then GET `/status/<uuid>`, answers 200 with the record the POST returned. */
  lemma PostThenGet(kv: Namespace, title: string, body: string, secret: string, uuid: string, now: string,
                    uuid': string, now': string, authorization: Option<string>)
    requires title != "" && body != ""
    ensures var post := Dispatch(kv, Request(POST, StatusPath, Some(secret), Some(Param(title, body))), Some(secret), uuid, now);
      var get := Dispatch(post.kv, Request(GET, ItemPath(uuid), authorization, None), Some(secret), uuid', now');
      && post.response.code == 200
      && get.response == Response(200, Single(post.response.payload.status))
      && get.response.payload.status == Some(Status(uuid, title, body, now))
  {
  }

  /** Update then read back: PUT `/status/<id>` then GET `/status/<id>` shows the
      new title and body with the original identifier field and date. */
  lemma PutThenGet(kv: Namespace, id: string, title: string, body: string, secret: string, uuid: string, now: string)
    requires title != "" && body != "" && Find(kv, id).Some?
    ensures var put := Dispatch(kv, Request(PUT, ItemPath(id), Some(secret), Some(Param(title, body))), Some(secret), uuid, now);
      var get := Dispatch(put.kv, Request(GET, ItemPath(id), None, None), Some(secret), uuid, now);
      var before := Find(kv, id).value;
      get.response == Response(200, Single(Some(Status(before.id, title, body, before.date))))
  {
  }

  /** Delete then read back: after DELETE `/status/<id>`, GET and a second DELETE
      on the same identifier both answer 404. */
  lemma DeleteThenNotFound(kv: Namespace, id: string, secret: string, uuid: string, now: string)
    ensures var del := Dispatch(kv, Request(DELETE, ItemPath(id), Some(secret), None), Some(secret), uuid, now);
      && Dispatch(del.kv, Request(GET, ItemPath(id), None, None), Some(secret), uuid, now).response == NotFound()
      && Dispatch(del.kv, Request(DELETE, ItemPath(id), Some(secret), None), Some(secret), uuid, now) == Reply(NotFound(), del.kv)
  {
  }
}
