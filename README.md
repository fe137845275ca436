# ep-to-postman, modelled in Dafny

`ep-to-postman` is a command-line script (`index.js`) that turns an Event Portal
application version into a Postman collection: one POST request per event version the
application declares it consumes, addressed to the broker's REST port, with a JSON body
generated from the event's schema. This project models the deterministic core of that
script and proves what it does:

- **address resolution** (`Address`): each level of an event's delivery address becomes
  one path segment, a `literal` level as its name and every other level type as
  `:name`; the raw URL is the `{{SolaceProtocol}}://{{SolaceHost}}:{{SolacePort}}/`
  prefix followed by the segments joined with `/`;
- **JavaScript string splitting** (`JsString`): `split` with a string separator,
  `join`, and indexing past the end of an array (which yields `undefined`), since the
  host and credential options are taken apart with them;
- **host and credential options** (`Connection`): `protocol://host:port` becomes the
  SolaceHost, SolacePort and SolaceProtocol variables, `username:password` the
  basic-auth block, with the script's sharp edges: a host option without `://` throws,
  a host option without a port gives an `undefined` port, a user option without `:`
  gives an `undefined` password, and text after a second `:` is dropped;
- **item creation** (`Items`): every item is a POST with one `Content-Type:
  application/json` header, the fixed status-200 test script, `auth: null` and no saved
  responses; an event version without a schema version makes the script throw;
- **the run** (`Converter`): the early returns when the application, its version or its
  declared consumed event versions are missing; a `Collection` object that starts with
  no items and gets one item appended per declared event version, in list order, then
  its variables and auth; `Run` and `BuildCollection` do this step by step and are
  proved equal to the functional description `Convert`.

The Event Portal lookups are the function-valued fields of a `Catalog` value (their
answers, already fetched); the schema-to-body step (`JSON.parse` followed by the
example generator) is a `Synthesizer` parameter that may fail. Every exception the
script can raise after its lookups is an `Error` value, and a run that raises one ends
as `Failed` and writes nothing.

The model follows the code, also where a stricter tool would behave differently:
- a malformed host or user option is not rejected as a configuration error: only a host
  option without `://` throws; a missing port or password just becomes `undefined`;
- every level type other than `literal` is rendered as a path variable, not only
  `variable`;
- an event version without a schema version does not produce an item without a body:
  the script throws while reading the schema content, so the whole run fails;
- one failing item aborts the whole run; items are not skipped one by one.

## Model

| member | source | states |
|---|---|---|
| `JsString.IndexOf` | index.js:116 | the position found is an occurrence of the separator at or after the start, and no occurrence lies before it; none is found only when there is no occurrence at all |
| `JsString.Split` | index.js:116 | `split` with a non-empty separator: joining the pieces with the separator gives the input back, no piece contains the separator, the first piece is the text before the first separator, and there is a single piece exactly when the separator does not occur |
| `JsString.FirstCut` | index.js:116 | at the first occurrence the text is the separator-free part before it, the separator and the rest |
| `JsString.IndexOfAfterFree` | index.js:116 | a separator occurrence is the first one when its first character does not appear earlier |
| `JsString.FirstIndexOfPrefix` | index.js:116 | cutting text after the first occurrence of a character does not move that occurrence |
| `JsString.SplitWhole` | index.js:116 | text without the separator's first character splits into itself alone |
| `JsString.SplitAfter` | index.js:116 | when nothing before a separator could start one, splitting cuts there first |
| `JsString.SplitJoin` | index.js:164-166 | `join` followed by `split` with the same separator gives back any non-empty list of parts in which the separator's first character does not occur (for a separator that overlaps itself, parts merely free of the separator are not enough) |
| `JsString.CharCut` | index.js:139 | a character that sits at index m and does not appear before it is where the text is cut: the text before is the first m characters, the text after is the rest past m |
| `JsString.SplitRest` | index.js:121 | after the first piece, the pieces of a split are those of the text after the first separator |
| `JsString.FoundIffPresent` | index.js:144 | a one-character separator is found exactly when the character occurs |
| `JsString.TextBeforeOfTextBefore` | index.js:116 | taking the text before "://" and then the text before ':' is the same as taking the text before ':' |
| `Address.ResolvePath` | index.js:159-162 | one segment per address level, in the same order; segment i is level i's name when its type is `literal` and `:` followed by the name for any other type |
| `Address.Endpoint` | index.js:164-166 | the raw URL starts with the protocol/host/port placeholder prefix |
| `Address.ResolvePathAppend` | index.js:159-162 | resolving two address parts one after the other concatenates their paths: nothing is reordered, dropped or merged |
| `Address.SegmentDecodes` | index.js:161 | a segment starts with ':' exactly when its level is not literal (given that no literal name starts with ':'), and the level's name can be read back from it |
| `Address.EndpointSplits` | index.js:164-166 | cutting the prefix off a raw URL and splitting at '/' gives back any non-empty path whose segments have no '/' |
| `Address.EndpointSplitsToPath` | index.js:194-200 | the item's raw URL and its structured path describe the same segments, for a non-empty address whose names contain no '/' |
| `Address.EmptyAddress` | index.js:159-166 | an empty address gives an empty path and a raw URL that is just the prefix |
| `Address.ThreeLevelExample` | index.js:159-162 | literal `acme`, variable `orderId`, literal `status` resolve to `acme`, `:orderId`, `status` |
| `Address.TwoLevelExample` | index.js:159-166 | literal `orders` and variable `orderId` resolve to `orders`, `:orderId` and join to `orders/:orderId` |
| `Connection.HostVariables` | index.js:112-129 | the host option throws exactly when it holds no "://"; otherwise there are three string variables SolaceHost, SolacePort, SolaceProtocol in that order, the protocol is the text before the first "://", the host the text between it and the next ':', and the port is `undefined` exactly when the whole option has fewer than two ':' and otherwise the text between its second and third ':' |
| `Connection.BasicAuth` | index.js:133-148 | a basic-auth block with a username then a password entry; the username is the text before the first ':', the password is `undefined` exactly when there is no ':' and otherwise the text between the first and second ':' |
| `Connection.SchemeCut` | index.js:116 | with no ':' in the protocol, the first "://" follows it directly |
| `Connection.ColonFields` | index.js:121 | `p://h:n` without other colons splits at ':' into `p`, `//h` and `n` |
| `Connection.PortField` | index.js:121 | the third ':'-separated field of an option exists exactly when there are two colons, and it is the text between the second colon and the next one |
| `Connection.HostRoundTrip` | index.js:116-126 | `p://h:n` with no ':' in p, h or n gives exactly host h, port n and protocol p |
| `Connection.HostWithoutPort` | index.js:121 | `p://h` gives host h and protocol p and an `undefined` port |
| `Connection.HostWithoutScheme` | index.js:116 | a host option without ':' or without '/' throws |
| `Connection.DefaultHost` | index.js:29-33 | the default `http://localhost:9000` gives host `localhost`, port `9000`, protocol `http` |
| `Connection.BracketedHostExample` | index.js:112-129 | a bracketed IPv6 option `http://[::1]:9000` is cut at its own colons: host `[`, port empty, protocol `http` |
| `Connection.BracketedCuts` | index.js:116-126 | the cuts of `http://[::1]:9000` at "://" and at ':' that the three variables read |
| `Connection.BracketedScheme` | index.js:116-126 | the protocol of `http://[::1]:9000` is `http` and the text between "://" and the next ':' is `[` |
| `Connection.BracketedColons` | index.js:121 | the text between the second and third ':' of `http://[::1]:9000` is empty |
| `Connection.SecureHostExample` | index.js:112-129 | `https://broker.example.com:9443` gives host `broker.example.com`, port `9443`, protocol `https` |
| `Connection.MalformedHostExamples` | index.js:116 | `not-a-url` and `localhost:9000` throw |
| `Connection.CredentialsRoundTrip` | index.js:139-144 | `u:w` with no ':' in u or w gives username u and password w |
| `Connection.CredentialsDropTail` | index.js:144 | anything after a second ':' is dropped |
| `Connection.CredentialsWithoutPassword` | index.js:144 | a user option without ':' leaves the password `undefined` |
| `Connection.DefaultCredentials` | index.js:34-38 | the default `default:default` gives username and password `default` |
| `Connection.AdminCredentials` | index.js:133-148 | `admin:secret` gives username `admin` and password `secret` |
| `Items.CreateItem` | index.js:156-212 | an item is built exactly when the event version has a schema version and a body can be generated from its content; without a schema version it throws; every item is a POST with one JSON content-type header, the status-200 test script, placeholder protocol/host/port, `auth: null` and no responses; its name is the event's name, its path the resolved address, its raw URL the prefix plus the joined path and its body the generated one |
| `Converter.CollectAll` | index.js:99-109 | the loop over the declared ids: when every item is built there is one per id, item i built from id i; otherwise the error is that of the first id whose item fails, and every id before it succeeded |
| `Converter.CollectAllStopsAt` | index.js:99-109 | when the ids before k succeed and id k fails, the run fails with id k's error |
| `Converter.EarlyExits` | index.js:51-80 | a run returns early without a collection exactly when no application has the name, the version is not found, or the version declares no consumed event versions |
| `Converter.WrittenCollection` | index.js:86-149 | a written collection has the Postman v2.1.0 schema URL and version 0.1.0, one POST item per declared id built from that id and in list order, the host variables exactly when a host is set and the basic-auth block exactly when a user is set |
| `Converter.FailedRun` | index.js:99-129 | once the lookups succeed, a run throws exactly when some item cannot be built or the host option has no "://" |
| `Converter.HostErrorAfterItems` | index.js:99-116 | a run that throws for the host option built every item first |
| `Converter.OrdersItem` | index.js:156-210 | the item of an event addressed `orders/{orderId}` is a POST to `orders/:orderId` named after the event and carrying the generated body |
| `Converter.OrdersRun` | index.js:86-149 | a run with one declared event version writes exactly one item, host variables and basic auth |
| `Converter.Collection.constructor` | index.js:87-96 | a new collection has the info block and no items, variables or auth |
| `Converter.Collection.PushItem` | index.js:108 | the item is appended after the existing ones and nothing else changes |
| `Converter.Collection.SetVariable` | index.js:113-129 | the variables are set and nothing else changes |
| `Converter.Collection.SetAuth` | index.js:134-148 | the auth block is set and nothing else changes |
| `Converter.Run` | index.js:51-85 | the step-by-step run ends exactly as the functional description `Convert` does |
| `Converter.BuildCollection` | index.js:86-149 | appending the items in a loop and then setting variables and auth gives exactly the collection (or the error) that `Assemble` describes |

## Left out

- Command-line parsing with `commander` (index.js:14-45) is not modelled: the options are
  an `Options` value, with `None` standing for a `null` host or user option.
- The output file name (index.js:47-49), the console output (index.js:100, 150, 168) and
  writing the file (index.js:151) are I/O and are left out; a `Written` outcome is the
  collection that would be serialised.
- Serialisation with `JSON.stringify` is not modelled, so the model does not show that an
  `undefined` variable value or password disappears from the written file.
- The Event Portal calls (`getApplicationIDs`, `getApplicationVersionObject`,
  `getEventVersionObject`, `getSchemaVersionObject`, `getEventName`) are network calls
  through a wrapper module that is not part of this model: their answers are the
  total functions of a `Catalog`, so lookup failures and network errors are not modelled.
- Body generation (`JSON.parse`, `json-schema-faker` and `JSON.stringify` at
  index.js:169, 204, 215-217) is a foreign library with pseudo-random output: it is the
  `Synthesizer` parameter, a function from schema text to an optional body, so the model
  neither captures that two calls on the same schema may differ nor proves that the body
  conforms to the schema or honours its defaults.
- `async`/`await` sequencing is not modelled; the run is strictly sequential.
- The nested `deliveryDescriptor.address.addressLevels` of an event version is flattened
  to one field; a missing descriptor, which would throw, is not modelled.
- `Converter.Run` takes the application version's description as a string; an
  `undefined` description is not modelled.
