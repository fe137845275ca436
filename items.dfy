/** One Postman request item per consumed event version: a POST to the event's
    resolved address with a generated JSON body and a status check. */
module Items {
  import opened Common
  import opened Address
  import opened Connection

  /** The schema version the catalog returns: its JSON Schema as text. */
  datatype SchemaVersion = SchemaVersion(content: string)

  /** The event version the catalog returns: the event it belongs to, its schema version
      (`None` for `null`) and the levels of its delivery address. */
  datatype EventVersion = EventVersion(eventId: string, schemaVersionId: Option<string>,
                                       addressLevels: seq<AddressLevel>)

  /** Turns schema text into a request body: parses it as JSON and renders an example
      payload; `None` when either step throws. */
  type Synthesizer = string -> Option<string>

  datatype Script = Script(exec: seq<string>, scriptType: string)
  datatype Event = Event(listen: string, script: Script)
  datatype Header = Header(key: string, value: string)
  datatype Url = Url(raw: string, protocol: string, host: seq<string>, port: string, path: seq<string>)
  datatype Body = Body(mode: string, raw: string)
  /** `httpMethod` is the request's `method`; `auth` is `None` for the item's `auth: null`. */
  datatype Request = Request(header: seq<Header>, url: Url, httpMethod: string, body: Body, auth: Option<Auth>)
  /** `response` holds saved example responses; the converter never saves any. */
  datatype Item = Item(name: string, event: seq<Event>, request: Request, response: seq<string>)

  /** The post-response script every item carries: it passes when the broker answers 200. */
  const StatusCheck: Event := Event("test", Script(
    ["//Check status",
     "tests[\"Expected status code - \" + responseCode.code + \" CREATED\"] = responseCode.code === 200;"],
    "text/javascript"))

  const JsonContentType: Header := Header("Content-Type", "application/json")

  /** What every item has in common, whatever event it was made from. */
  predicate PostShape(it: Item)
  {
    && it.event == [StatusCheck]
    && it.request.httpMethod == "POST"
    && it.request.header == [JsonContentType]
    && it.request.url.protocol == "{{SolaceProtocol}}"
    && it.request.url.host == ["{{SolaceHost}}"]
    && it.request.url.port == "{{SolacePort}}"
    && it.request.body.mode == "raw"
    && it.request.auth == None
    && it.response == []
  }

  /** The item for one event version, named `requestName`. It needs a schema version: without
      one, reading its content throws; and it needs a body the synthesizer can produce. */
  function CreateItem(ev: EventVersion, schema: Option<SchemaVersion>, requestName: string,
                      synthesize: Synthesizer): (r: Result<Item>)
    ensures schema.None? ==> r == Err(SchemaVersionMissing)
    ensures r.Ok? <==> schema.Some? && synthesize(schema.value.content).Some?
    ensures r.Err? ==> r.error in {SchemaVersionMissing, SchemaUnusable}
    ensures r.Ok? ==> PostShape(r.value) && r.value.name == requestName
    ensures r.Ok? ==> r.value.request.url.path == ResolvePath(ev.addressLevels)
    ensures r.Ok? ==> r.value.request.url.raw == EndpointPrefix + JsString.Join(r.value.request.url.path, "/")
    ensures r.Ok? ==> r.value.request.body.raw == synthesize(schema.value.content).value
  {
    var path := ResolvePath(ev.addressLevels);
    var url := Url(Endpoint(path), "{{SolaceProtocol}}", ["{{SolaceHost}}"], "{{SolacePort}}", path);
    match schema
    case None => Err(SchemaVersionMissing)
    case Some(sv) =>
      match synthesize(sv.content)
      case None => Err(SchemaUnusable)
      case Some(body) =>
        Ok(Item(requestName, [StatusCheck],
                Request([JsonContentType], url, "POST", Body("raw", body), None), []))
  }
}
