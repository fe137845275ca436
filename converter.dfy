/** The conversion run: look up the application version, build one item per declared
    consumed event version in list order, then attach the broker variables and credentials. */
module Converter {
  import opened Common
  import opened Connection
  import opened Items

  /** The Postman Collection format version the output targets (v2.1.0). */
  const CollectionSchema: string := "https://schema.getpostman.com/json/collection/v2.1.0/collection.json"
  const CollectionVersion: string := "0.1.0"

  datatype ApplicationVersion = ApplicationVersion(description: string,
                                                   declaredConsumedEventVersionIds: seq<string>)

  /** The answers of the Event Portal lookups, by name or id. */
  datatype Catalog = Catalog(
    applicationIds: string -> seq<string>,
    applicationVersion: (string, string) -> Option<ApplicationVersion>,
    eventVersion: string -> EventVersion,
    schemaVersion: string -> SchemaVersion,
    eventName: string -> string)

  /** The command-line options the conversion reads; `None` for a `null` option. */
  datatype Options = Options(applicationName: string, applicationVersion: string,
                             host: Option<string>, user: Option<string>)

  datatype Info = Info(name: string, description: string, schema: string, version: string)

  /** The collection as it is written out; an absent `variable` or `auth` field is `None`. */
  datatype Document = Document(info: Info, item: seq<Item>, variable: Option<seq<Variable>>,
                               auth: Option<Auth>)

  /** How a run ends: one of three early returns that write nothing, an exception that
      writes nothing, or the collection that is written. */
  datatype Outcome =
    | NoApplication
    | NoVersion
    | NothingToDo
    | Failed(error: Error)
    | Written(collection: Document)

  /** One pass of the loop body: fetch the event version, its schema version if it names
      one, and its event's name, then build the item. */
  function ItemFor(cat: Catalog, synthesize: Synthesizer, id: string): Result<Item>
  {
    var ev := cat.eventVersion(id);
    var schema := if ev.schemaVersionId.Some? then Some(cat.schemaVersion(ev.schemaVersionId.value)) else None;
    CreateItem(ev, schema, cat.eventName(ev.eventId), synthesize)
  }

  /** The loop body as a function of the id alone. */
  function ItemMaker(cat: Catalog, synthesize: Synthesizer): string -> Result<Item>
  {
    id => ItemFor(cat, synthesize, id)
  }

  /** The outcome of running `make` over `ids` in order: one result per id, in the ids'
      order, or the error of the first id that fails. */
  function CollectAll<T>(make: string -> Result<T>, ids: seq<string>): (r: Result<seq<T>>)
    ensures r.Ok? ==> |r.value| == |ids|
    ensures r.Ok? ==> forall i :: 0 <= i < |ids| ==> make(ids[i]) == Ok(r.value[i])
    ensures r.Err? ==> exists i :: (0 <= i < |ids| && make(ids[i]) == Err(r.error)
      && forall j :: 0 <= j < i ==> make(ids[j]).Ok?)
  {
    if ids == [] then Ok([])
    else
      var front := ids[..|ids| - 1];
      match CollectAll(make, front)
      case Err(e) =>
        assert forall j :: 0 <= j < |front| ==> front[j] == ids[j];
        Err(e)
      case Ok(items) =>
        match make(ids[|ids| - 1])
        case Err(e) => Err(e)
        case Ok(it) => Ok(items + [it])
  }

  /** When every id before `k` succeeds and id `k` fails, the whole run fails with id `k`'s
      error: the ids after it are never tried. */
  lemma {:induction false} CollectAllStopsAt<T>(make: string -> Result<T>, ids: seq<string>, k: nat)
    requires k < |ids| && CollectAll(make, ids[..k]).Ok? && make(ids[k]).Err?
    ensures CollectAll(make, ids) == Err(make(ids[k]).error)
  {
    forall j | 0 <= j < k ensures make(ids[j]).Ok? {
      assert ids[..k][j] == ids[j];
    }
    var r := CollectAll(make, ids);
    assert r.Err?;
    var i :| 0 <= i < |ids| && make(ids[i]) == Err(r.error) && forall j :: 0 <= j < i ==> make(ids[j]).Ok?;
    assert i == k;
  }

  /** The whole conversion, as the value it ends with. */
  function Convert(opts: Options, cat: Catalog, synthesize: Synthesizer): Outcome
  {
    if FirstApplication(opts, cat).None? then NoApplication
    else
      match TargetVersion(opts, cat)
      case None => NoVersion
      case Some(av) =>
        if |av.declaredConsumedEventVersionIds| == 0 then NothingToDo
        else Assemble(opts, av, ItemMaker(cat, synthesize))
  }

  /** The collection of an application version that declares consumed event versions:
      its items, then the host variables when a host is set, then the basic-auth block
      when a user is set. */
  function Assemble(opts: Options, av: ApplicationVersion, make: string -> Result<Item>): Outcome
  {
    match CollectAll(make, av.declaredConsumedEventVersionIds)
    case Err(e) => Failed(e)
    case Ok(items) =>
      var info := Info(opts.applicationName, av.description, CollectionSchema, CollectionVersion);
      var auth := if opts.user.Some? then Some(BasicAuth(opts.user.value)) else None;
      if opts.host.None? then Written(Document(info, items, None, auth))
      else
        match HostVariables(opts.host.value)
        case Err(e) => Failed(e)
        case Ok(vars) => Written(Document(info, items, Some(vars), auth))
  }

  /** The application a run works on: the first one with the given name, if any. */
  function FirstApplication(opts: Options, cat: Catalog): Option<string>
  {
    var applicationIds := cat.applicationIds(opts.applicationName);
    if |applicationIds| == 0 then None else Some(applicationIds[0])
  }

  /** The application version a run works on: the named version of the first application
      with the given name; `None` when there is no such application or version. */
  function TargetVersion(opts: Options, cat: Catalog): Option<ApplicationVersion>
  {
    match FirstApplication(opts, cat)
    case None => None
    case Some(applicationId) => cat.applicationVersion(applicationId, opts.applicationVersion)
  }

  /** A run stops early, writing nothing and raising nothing, exactly when the application
      or its version is not found or the version declares no consumed event versions. */
  lemma {:induction false} EarlyExits(opts: Options, cat: Catalog, synthesize: Synthesizer)
    ensures var out := Convert(opts, cat, synthesize);
      (out.NoApplication? || out.NoVersion? || out.NothingToDo?)
      <==> (TargetVersion(opts, cat).None? || |TargetVersion(opts, cat).value.declaredConsumedEventVersionIds| == 0)
  {
    var out := Convert(opts, cat, synthesize);
    if TargetVersion(opts, cat).Some? && |TargetVersion(opts, cat).value.declaredConsumedEventVersionIds| > 0 {
      var av := TargetVersion(opts, cat).value;
      match CollectAll(ItemMaker(cat, synthesize), av.declaredConsumedEventVersionIds)
      case Err(_) =>
      case Ok(_) =>
        assert out.Written? || out.Failed?;
    }
  }

  /** What a written collection holds: the Postman v2.1.0 info block, one POST item per
      declared consumed event version built from that id and in list order, the host
      variables exactly when a host is set and the basic-auth block exactly when a user is set. */
  lemma {:induction false} WrittenCollection(opts: Options, cat: Catalog, synthesize: Synthesizer)
    requires Convert(opts, cat, synthesize).Written?
    ensures TargetVersion(opts, cat).Some?
    ensures var av := TargetVersion(opts, cat).value;
      var ids := av.declaredConsumedEventVersionIds;
      var doc := Convert(opts, cat, synthesize).collection;
      && |ids| > 0
      && doc.info == Info(opts.applicationName, av.description, CollectionSchema, CollectionVersion)
      && |doc.item| == |ids|
      && (forall i :: 0 <= i < |ids| ==> ItemFor(cat, synthesize, ids[i]) == Ok(doc.item[i]))
      && (forall i :: 0 <= i < |doc.item| ==> PostShape(doc.item[i]))
      && (doc.variable.Some? <==> opts.host.Some?)
      && (opts.host.Some? ==> HostVariables(opts.host.value) == Ok(doc.variable.value))
      && (doc.auth.Some? <==> opts.user.Some?)
      && (opts.user.Some? ==> doc.auth.value == BasicAuth(opts.user.value))
  {
    var av := TargetVersion(opts, cat).value;
    var ids := av.declaredConsumedEventVersionIds;
    var make := ItemMaker(cat, synthesize);
    var items := CollectAll(make, ids).value;
    forall i | 0 <= i < |ids| ensures ItemFor(cat, synthesize, ids[i]) == Ok(items[i]) && PostShape(items[i]) {
      assert make(ids[i]) == ItemFor(cat, synthesize, ids[i]);
    }
  }

  /** Once the lookups succeed, a run throws exactly when some declared event version's item
      cannot be built or the host option has no "://". */
  lemma {:induction false} FailedRun(opts: Options, cat: Catalog, synthesize: Synthesizer)
    requires TargetVersion(opts, cat).Some?
    requires |TargetVersion(opts, cat).value.declaredConsumedEventVersionIds| > 0
    ensures var ids := TargetVersion(opts, cat).value.declaredConsumedEventVersionIds;
      Convert(opts, cat, synthesize).Failed? <==>
        (exists i :: 0 <= i < |ids| && ItemFor(cat, synthesize, ids[i]).Err?)
        || (opts.host.Some? && JsString.IndexOf(opts.host.value, "://", 0).None?)
  {
    var av := TargetVersion(opts, cat).value;
    var ids := av.declaredConsumedEventVersionIds;
    var make := ItemMaker(cat, synthesize);
    assert Convert(opts, cat, synthesize) == Assemble(opts, av, make);
    assert forall i :: 0 <= i < |ids| ==> make(ids[i]) == ItemFor(cat, synthesize, ids[i]);
  }

  /** The items are built before the host option is read: a run that throws for the host
      option built every item. */
  lemma {:induction false} HostErrorAfterItems(opts: Options, cat: Catalog, synthesize: Synthesizer)
    requires TargetVersion(opts, cat).Some?
    requires Convert(opts, cat, synthesize) == Failed(HostSchemeMissing)
    ensures var ids := TargetVersion(opts, cat).value.declaredConsumedEventVersionIds;
      forall i :: 0 <= i < |ids| ==> ItemFor(cat, synthesize, ids[i]).Ok?
  {
    var av := TargetVersion(opts, cat).value;
    var ids := av.declaredConsumedEventVersionIds;
    var make := ItemMaker(cat, synthesize);
    assert Convert(opts, cat, synthesize) == Assemble(opts, av, make);
    assert forall i :: 0 <= i < |ids| ==> make(ids[i]) == ItemFor(cat, synthesize, ids[i]);
  }

  /** A catalog with one application whose version declares one consumed event version,
      addressed `orders/{orderId}` and carrying a schema. */
  function OrdersCatalog(): Catalog
  {
    Catalog(
      name => ["app-1"],
      (id, version) => Some(ApplicationVersion("Order intake", ["ev-1"])),
      id => EventVersion("event-1", Some("schema-1"),
                         [Address.AddressLevel("literal", "orders"), Address.AddressLevel("variable", "orderId")]),
      id => SchemaVersion("{\"type\":\"object\",\"required\":[\"qty\"]}"),
      id => "OrderPlaced")
  }

  /** The item of that one event version: a POST to `orders/:orderId` carrying `body`. */
  lemma {:induction false} OrdersItem(body: string)
    ensures var r := ItemFor(OrdersCatalog(), content => Some(body), "ev-1");
      && r.Ok?
      && r.value.name == "OrderPlaced"
      && r.value.request.httpMethod == "POST"
      && r.value.request.url.path == ["orders", ":orderId"]
      && r.value.request.url.raw == Address.EndpointPrefix + "orders/:orderId"
      && r.value.request.body.raw == body
  {
    var levels := [Address.AddressLevel("literal", "orders"), Address.AddressLevel("variable", "orderId")];
    Address.TwoLevelExample();
    var ev := OrdersCatalog().eventVersion("ev-1");
    assert ev == EventVersion("event-1", Some("schema-1"), levels);
    var schema := Some(OrdersCatalog().schemaVersion("schema-1"));
    assert ItemFor(OrdersCatalog(), content => Some(body), "ev-1")
        == CreateItem(ev, schema, "OrderPlaced", content => Some(body));
  }

  /** A run over that catalog with the default host and user writes a collection with exactly
      that one item, the host variables and the basic-auth block. */
  lemma {:induction false} OrdersRun(body: string)
    ensures var opts := Options("Orders", "1.0.0", Some("http://localhost:9000"), Some("default:default"));
      var out := Convert(opts, OrdersCatalog(), content => Some(body));
      && out.Written?
      && |out.collection.item| == 1
      && out.collection.item[0] == ItemFor(OrdersCatalog(), content => Some(body), "ev-1").value
      && out.collection.variable.Some?
      && out.collection.auth.Some?
  {
    var synthesize: Synthesizer := content => Some(body);
    OrdersItem(body);
    var make := ItemMaker(OrdersCatalog(), synthesize);
    assert make("ev-1") == ItemFor(OrdersCatalog(), synthesize, "ev-1");
    var ids := ["ev-1"];
    assert ids[..0] == [];
    assert CollectAll(make, ids).Ok?;
    Connection.DefaultHost();
  }

  /** The collection object the run fills in. */
  class Collection {
    var info: Info
    var item: seq<Item>
    var variable: Option<seq<Variable>>
    var auth: Option<Auth>

    /** A collection with its info block and no items, variables or auth yet. */
    constructor (name: string, description: string)
      ensures info == Info(name, description, CollectionSchema, CollectionVersion)
      ensures item == [] && variable == None && auth == None
    {
      info := Info(name, description, CollectionSchema, CollectionVersion);
      item := [];
      variable := None;
      auth := None;
    }

    /** The collection as it would be written now. */
    function Snapshot(): Document
      reads this
    {
      Document(info, item, variable, auth)
    }

    /** Appends an item after the ones already there. */
    method PushItem(it: Item)
      modifies this
      ensures item == old(item) + [it]
      ensures info == old(info) && variable == old(variable) && auth == old(auth)
    {
      item := item + [it];
    }

    method SetVariable(vars: seq<Variable>)
      modifies this
      ensures variable == Some(vars)
      ensures info == old(info) && item == old(item) && auth == old(auth)
    {
      variable := Some(vars);
    }

    method SetAuth(a: Auth)
      modifies this
      ensures auth == Some(a)
      ensures info == old(info) && item == old(item) && variable == old(variable)
    {
      auth := Some(a);
    }
  }

  /** The conversion run: the lookups and their early returns. */
  method Run(opts: Options, cat: Catalog, synthesize: Synthesizer) returns (out: Outcome)
    ensures out == Convert(opts, cat, synthesize)
  {
    var applicationIds := cat.applicationIds(opts.applicationName);
    if |applicationIds| == 0 {
      return NoApplication;
    }
    var applicationVersion := cat.applicationVersion(applicationIds[0], opts.applicationVersion);
    if applicationVersion.None? {
      return NoVersion;
    }
    var av := applicationVersion.value;
    if |av.declaredConsumedEventVersionIds| == 0 {
      return NothingToDo;
    }
    out := BuildCollection(opts, av, ItemMaker(cat, synthesize));
  }

  /** The rest of the run, on a collection object: append one item per declared consumed
      event version, in order, then set the variables and the auth block. */
  method BuildCollection(opts: Options, av: ApplicationVersion, make: string -> Result<Item>)
    returns (out: Outcome)
    ensures out == Assemble(opts, av, make)
  {
    var ids := av.declaredConsumedEventVersionIds;
    var collection := new Collection(opts.applicationName, av.description);
    var k := 0;
    while k < |ids|
      invariant 0 <= k <= |ids|
      invariant CollectAll(make, ids[..k]) == Ok(collection.item)
      invariant collection.info == Info(opts.applicationName, av.description, CollectionSchema, CollectionVersion)
      invariant collection.variable == None && collection.auth == None
    {
      var next := make(ids[k]);
      if next.Err? {
        CollectAllStopsAt(make, ids, k);
        return Failed(next.error);
      }
      assert ids[..k + 1][..k] == ids[..k];
      collection.PushItem(next.value);
      k := k + 1;
    }
    assert ids[..k] == ids;
    if opts.host.Some? {
      var vars := HostVariables(opts.host.value);
      if vars.Err? {
        return Failed(vars.error);
      }
      collection.SetVariable(vars.value);
    }
    if opts.user.Some? {
      collection.SetAuth(BasicAuth(opts.user.value));
    }
    out := Written(collection.Snapshot());
  }
}
