/** The three kinds of jrpc messages: how the server builds them and how it takes a received text apart. */
module Rpc {
  import opened Jansson

  /** A successful response; a missing result leaves the field out. */
  function Response(result: Option<Json>, id: int32): Json {
    Object(ObjectSet(ObjectSet(map[], "result", result), "id", Some(Integer(id))))
  }

  function ErrorResponse(code: int32, message: string, id: int32): Json {
    var holder := ObjectSet(ObjectSet(map[], "code", Some(Integer(code))), "message", Some(String(message)));
    Object(ObjectSet(ObjectSet(map[], "error", Some(Object(holder))), "id", Some(Integer(id))))
  }

  /** A notification; missing parameters leave the field out. */
  function Notification(name: string, params: Option<Json>): Json {
    Object(ObjectSet(ObjectSet(map[], "method", Some(String(name))), "params", params))
  }

  /** A request as a client sends it. */
  function Request(name: string, params: Json, id: int64): Json {
    Object(map["method" := String(name), "params" := params, "id" := Integer(id)])
  }

  /** What a received text asks for. `id` has passed through a C `int`. */
  datatype Call =
    | Method(name: string, params: Json, id: int32)
    | Notify(name: string, params: Json)

  predicate Structured(params: Option<Json>) {
    params.Some? && (params.value.Array? || params.value.Object?)
  }

  /** The classification of a received text; a text that does not load is `None`. */
  function Classify(text: Option<Json>): Option<Call> {
    if text.None? then None else
    var name := ObjectGet(text.value, "method");
    var params := ObjectGet(text.value, "params");
    var id := ObjectGet(text.value, "id");
    if name.Some? && name.value.String? && Structured(params) then
      if id.Some? && id.value.Integer?
      then Some(Method(name.value.s, params.value, Narrow(id.value.i)))
      else Some(Notify(name.value.s, params.value))
    else None
  }

  /** The messages that carry a `method`: on the wire, these are the notifications. */
  predicate IsNotification(body: Json) {
    ObjectGet(body, "method").Some?
  }

  /** A notification the server builds is one the server itself would dispatch, with the same method and
      parameters, exactly when the parameters are an array or an object; otherwise it would drop it. */
  lemma NotificationClassified(name: string, params: Option<Json>)
    ensures Structured(params) ==> Classify(Some(Notification(name, params))) == Some(Notify(name, params.value))
    ensures !Structured(params) ==> Classify(Some(Notification(name, params))) == None
    ensures IsNotification(Notification(name, params))
  {
    var fields := Notification(name, params).fields;
    assert "id" !in fields && fields["method"] == String(name);
  }

  /** A response is never dispatched by a server, whatever is nested inside its result. */
  lemma ResponseNotDispatched(result: Option<Json>, code: int32, message: string, id: int32)
    ensures Classify(Some(Response(result, id))) == None
    ensures Classify(Some(ErrorResponse(code, message, id))) == None
    ensures !IsNotification(Response(result, id)) && !IsNotification(ErrorResponse(code, message, id))
  {
    assert "method" !in Response(result, id).fields;
    assert "method" !in ErrorResponse(code, message, id).fields;
  }

  function ResponseId(body: Json): Option<Json> {
    ObjectGet(body, "id")
  }

  /** From dispatch to response: the identifier that comes back is the request's modulo 2^32, and it is the
      request's own identifier exactly when that fits a C `int`. */
  lemma IdEcho(name: string, params: Json, id: int64, result: Option<Json>, code: int32, message: string)
    requires Structured(Some(params))
    ensures
      var call := Classify(Some(Request(name, params, id)));
      && call.Some? && call.value.Method? && call.value.name == name && call.value.params == params
      && (forall body: Json ::
            body == Response(result, call.value.id) || body == ErrorResponse(code, message, call.value.id) ==>
              && ResponseId(body).Some? && ResponseId(body).value.Integer?
              && (ResponseId(body).value.i - id) % 0x1_0000_0000 == 0
              && (ResponseId(body) == Some(Integer(id)) <==> -0x8000_0000 <= id < 0x8000_0000))
  {
    var call := Classify(Some(Request(name, params, id))).value;
    NarrowIsCongruent(id, call.id);
    assert (id - call.id) % 0x1_0000_0000 == 0;
    assert (call.id - id) % 0x1_0000_0000 == 0;
    assert ResponseId(Response(result, call.id)) == Some(Integer(call.id));
    assert ResponseId(ErrorResponse(code, message, call.id)) == Some(Integer(call.id));
  }

  /** The promise "the id is repeated in the response" fails for an identifier outside the `int` range. */
  lemma IdNotRepeated()
    ensures
      var call := Classify(Some(Request("add", Array([]), 0x1_0000_002A)));
      call.Some? && call.value.Method? && ResponseId(Response(None, call.value.id)) == Some(Integer(42))
  {
    IdEcho("add", Array([]), 0x1_0000_002A, None, 0, "");
  }
}
