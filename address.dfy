/** Turning an event's address levels into the URL path of its REST request. */
module Address {
  import opened JsString

  /** One level of an event's delivery address: its type ("literal", "variable", ...) and name. */
  datatype AddressLevel = AddressLevel(addressLevelType: string, name: string)

  /** The fixed scheme, host and port placeholders every request URL starts with. */
  const EndpointPrefix: string := "{{SolaceProtocol}}://{{SolaceHost}}:{{SolacePort}}/"

  /** The path segment of one level: a literal level stands for itself, every other
      level type becomes a path variable written with a leading ':'. */
  function Segment(level: AddressLevel): string
  {
    if level.addressLevelType == "literal" then level.name else ":" + level.name
  }

  /** The path of an address: one segment per level, in the levels' order. */
  function ResolvePath(levels: seq<AddressLevel>): (path: seq<string>)
    ensures |path| == |levels|
    ensures forall i :: 0 <= i < |levels| ==>
      path[i] == if levels[i].addressLevelType == "literal" then levels[i].name else ":" + levels[i].name
  {
    if levels == [] then [] else [Segment(levels[0])] + ResolvePath(levels[1..])
  }

  /** The raw request URL: the placeholder prefix followed by the path joined with '/'. */
  function Endpoint(path: seq<string>): (raw: string)
    ensures |raw| >= |EndpointPrefix| && raw[..|EndpointPrefix|] == EndpointPrefix
  {
    EndpointPrefix + Join(path, "/")
  }

  /** Resolving concatenated addresses concatenates their paths: no level is reordered,
      dropped or merged with its neighbour. */
  lemma {:induction false} ResolvePathAppend(a: seq<AddressLevel>, b: seq<AddressLevel>)
    ensures ResolvePath(a + b) == ResolvePath(a) + ResolvePath(b)
  {
    if a != [] {
      assert (a + b)[1..] == a[1..] + b;
      ResolvePathAppend(a[1..], b);
    }
  }

  /** A segment tells which kind of level it came from, and which name, as long as no
      literal name itself starts with ':'. */
  lemma SegmentDecodes(level: AddressLevel)
    requires level.addressLevelType == "literal" ==> (level.name == [] || level.name[0] != ':')
    ensures var seg := Segment(level);
      && (|seg| > 0 && seg[0] == ':' <==> level.addressLevelType != "literal")
      && (if level.addressLevelType == "literal" then seg else seg[1..]) == level.name
  {
  }

  /** Dropping a prefix from a concatenation leaves the rest. */
  lemma PrefixThenRest(prefix: string, rest: string)
    ensures (prefix + rest)[|prefix|..] == rest
  {
  }

  /** A segment holds a '/' only if its level's name does. */
  lemma SegmentKeepsSlashes(level: AddressLevel)
    requires '/' !in level.name
    ensures "/"[0] !in Segment(level)
  {
    assert "/"[0] == '/';
    if level.addressLevelType != "literal" {
      assert Segment(level) == [':'] + level.name;
    }
  }

  /** A path holds a '/' inside a segment only if some level's name does. */
  lemma PathKeepsSlashes(levels: seq<AddressLevel>)
    requires forall i :: 0 <= i < |levels| ==> '/' !in levels[i].name
    ensures forall k :: 0 <= k < |levels| ==> "/"[0] !in ResolvePath(levels)[k]
  {
    var path := ResolvePath(levels);
    forall k | 0 <= k < |path| ensures "/"[0] !in path[k] {
      assert path[k] == Segment(levels[k]);
      SegmentKeepsSlashes(levels[k]);
    }
  }

  /** Cutting the prefix off a raw URL and splitting at '/' gives back a non-empty path
      whose segments contain no '/'. */
  lemma {:induction false} EndpointSplits(path: seq<string>)
    requires |path| >= 1
    requires forall k :: 0 <= k < |path| ==> "/"[0] !in path[k]
    ensures Split(Endpoint(path)[|EndpointPrefix|..], "/") == path
  {
    PrefixThenRest(EndpointPrefix, Join(path, "/"));
    SplitJoin(path, "/");
  }

  /** The structured path and the raw URL describe the same segments: cutting the prefix
      off the raw URL and splitting at '/' gives the path back, provided the address is
      not empty and no level name contains '/'. */
  lemma {:induction false} EndpointSplitsToPath(levels: seq<AddressLevel>)
    requires |levels| >= 1
    requires forall i :: 0 <= i < |levels| ==> '/' !in levels[i].name
    ensures Split(Endpoint(ResolvePath(levels))[|EndpointPrefix|..], "/") == ResolvePath(levels)
  {
    var path := ResolvePath(levels);
    PathKeepsSlashes(levels);
    EndpointSplits(path);
    assert Split(Endpoint(path)[|EndpointPrefix|..], "/") == path;
  }

  /** An empty address resolves to an empty path and a URL that ends right after the prefix. */
  lemma EmptyAddress()
    ensures ResolvePath([]) == [] && Endpoint(ResolvePath([])) == EndpointPrefix
  {
  }

  /** The worked example: literal, variable, literal. */
  lemma ThreeLevelExample()
    ensures ResolvePath([AddressLevel("literal", "acme"), AddressLevel("variable", "orderId"),
                         AddressLevel("literal", "status")])
         == ["acme", ":orderId", "status"]
  {
    var levels := [AddressLevel("literal", "acme"), AddressLevel("variable", "orderId"),
                   AddressLevel("literal", "status")];
    var path := ResolvePath(levels);
    assert path[0] == "acme" && path[1] == ":orderId" && path[2] == "status";
  }

  /** A literal level followed by a variable level. */
  lemma TwoLevelExample()
    ensures ResolvePath([AddressLevel("literal", "orders"), AddressLevel("variable", "orderId")])
         == ["orders", ":orderId"]
    ensures Join(["orders", ":orderId"], "/") == "orders/:orderId"
  {
    assert Join(["orders", ":orderId"], "/") == "orders" + "/" + Join([":orderId"], "/");
    var path := ResolvePath([AddressLevel("literal", "orders"), AddressLevel("variable", "orderId")]);
    assert path[0] == "orders" && path[1] == ":orderId";
  }
}
