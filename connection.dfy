/** The broker settings of a collection: the host variables parsed from
    `protocol://host:port` and the basic-auth block parsed from `username:password`. */
module Connection {
  import opened Common
  import opened JsString

  /** A collection variable; an `undefined` value is `None`. */
  datatype Variable = Variable(key: string, value: Option<string>, varType: string)

  /** One entry of a basic-auth block; an `undefined` value is `None`. */
  datatype AuthEntry = AuthEntry(key: string, value: Option<string>, entryType: string)

  datatype Auth = Auth(authType: string, basic: seq<AuthEntry>)

  /** The SolaceHost, SolacePort and SolaceProtocol variables of a host option. The host is
      read behind the first "://", so a host option without "://" throws; the port is the
      third ':'-separated field of the whole option, so it is `undefined` when the option
      has fewer than two colons. */
  function HostVariables(spec: string): (r: Result<seq<Variable>>)
    ensures r.Err? <==> IndexOf(spec, "://", 0).None?
    ensures r.Err? ==> r.error == HostSchemeMissing
    ensures r.Ok? ==> (
      && |r.value| == 3
      && r.value[0].key == "SolaceHost" && r.value[1].key == "SolacePort"
      && r.value[2].key == "SolaceProtocol"
      && r.value[0].varType == r.value[1].varType == r.value[2].varType == "string")
    ensures r.Ok? ==> r.value[2].value == Some(TextBefore(spec, "://"))
    ensures r.Ok? ==> r.value[0].value == Some(TextBefore(TextAfter(spec, "://"), ":"))
    ensures r.Ok? ==> (r.value[1].value.Some? <==>
      IndexOf(spec, ":", 0).Some? && IndexOf(TextAfter(spec, ":"), ":", 0).Some?)
    ensures r.Ok? && r.value[1].value.Some? ==>
      r.value[1].value.value == TextBefore(TextAfter(TextAfter(spec, ":"), ":"), ":")
  {
    var byScheme := Split(spec, "://");
    if |byScheme| < 2 then Err(HostSchemeMissing)
    else
      var rest := TextAfter(spec, "://");
      assert byScheme[1] == TextBefore(rest, "://");
      TextBeforeOfTextBefore(rest, "://", ':');
      PortField(spec);
      Ok([Variable("SolaceHost", Some(Split(byScheme[1], ":")[0]), "string"),
          Variable("SolacePort", Field(Split(spec, ":"), 2), "string"),
          Variable("SolaceProtocol", Some(byScheme[0]), "string")])
  }

  /** The third ':'-separated field of an option exists exactly when it has two colons,
      and it is the text between the second colon and the next one. */
  lemma {:induction false} PortField(spec: string)
    ensures Field(Split(spec, ":"), 2).Some? <==>
      IndexOf(spec, ":", 0).Some? && IndexOf(TextAfter(spec, ":"), ":", 0).Some?
    ensures Field(Split(spec, ":"), 2).Some? ==>
      Field(Split(spec, ":"), 2).value == TextBefore(TextAfter(TextAfter(spec, ":"), ":"), ":")
  {
    if IndexOf(spec, ":", 0).Some? {
      var after := TextAfter(spec, ":");
      SplitRest(spec, ":");
      assert Split(spec, ":")[1..] == Split(after, ":");
      if IndexOf(after, ":", 0).Some? {
        SplitRest(after, ":");
        assert Split(spec, ":")[2] == Split(after, ":")[1] == Split(TextAfter(after, ":"), ":")[0];
      }
    }
  }

  /** The basic-auth block of a user option: the username is the text before the first ':',
      the password the text between the first and the second ':' (`undefined` when there is
      no ':'); whatever follows a second ':' is dropped. */
  function BasicAuth(spec: string): (a: Auth)
    ensures a.authType == "basic" && |a.basic| == 2
      && a.basic[0].key == "username" && a.basic[1].key == "password"
      && a.basic[0].entryType == a.basic[1].entryType == "string"
    ensures a.basic[0].value == Some(TextBefore(spec, ":"))
    ensures a.basic[1].value.None? <==> ':' !in spec
    ensures a.basic[1].value.Some? ==>
      IndexOf(spec, ":", 0).Some? && a.basic[1].value.value == TextBefore(TextAfter(spec, ":"), ":")
  {
    var fields := Split(spec, ":");
    FoundIffPresent(spec, ':');
    Auth("basic", [AuthEntry("username", Some(fields[0]), "string"),
                   AuthEntry("password", Field(fields, 1), "string")])
  }

  /** With no ':' in the protocol, the first "://" is the one right after it. */
  lemma {:induction false} SchemeCut(p: string, rest: string)
    requires ':' !in p
    ensures IndexOf(p + "://" + rest, "://", 0) == Some(|p|)
    ensures TextBefore(p + "://" + rest, "://") == p
    ensures TextAfter(p + "://" + rest, "://") == rest
  {
    var spec := p + "://" + rest;
    assert spec[..|p|] == p && spec[|p|..|p| + 3] == "://" && spec[|p| + 3..] == rest;
    IndexOfAfterFree(spec, "://", |p|);
  }

  /** The ':'-separated fields of `p://h:n` when no component contains ':'. */
  lemma {:induction false} ColonFields(p: string, h: string, n: string)
    requires ':' !in p && ':' !in h && ':' !in n
    ensures Split(p + "://" + h + ":" + n, ":") == [p, "//" + h, n]
  {
    var tail := "//" + h;
    assert ':' !in tail;
    assert p + "://" + h + ":" + n == p + ":" + (tail + ":" + n);
    SplitAfter(p, ":", tail + ":" + n);
    SplitAfter(tail, ":", n);
    SplitWhole(n, ":");
  }

  /** A host option `p://h:n` whose three components contain no ':' gives back exactly
      h, n and p, in the variable order SolaceHost, SolacePort, SolaceProtocol. */
  lemma {:induction false} HostRoundTrip(p: string, h: string, n: string)
    requires ':' !in p && ':' !in h && ':' !in n
    ensures HostVariables(p + "://" + h + ":" + n)
         == Ok([Variable("SolaceHost", Some(h), "string"),
                Variable("SolacePort", Some(n), "string"),
                Variable("SolaceProtocol", Some(p), "string")])
  {
    var hn := h + ":" + n;
    assert p + "://" + h + ":" + n == p + "://" + hn;
    SchemeCut(p, hn);
    assert hn[..|h|] == h && hn[|h|..|h| + 1] == ":";
    IndexOfAfterFree(hn, ":", |h|);
    ColonFields(p, h, n);
  }

  /** A host option `p://h` without a port still yields host and protocol, and leaves
      SolacePort `undefined`. */
  lemma {:induction false} HostWithoutPort(p: string, h: string)
    requires ':' !in p && ':' !in h
    ensures HostVariables(p + "://" + h)
         == Ok([Variable("SolaceHost", Some(h), "string"),
                Variable("SolacePort", None, "string"),
                Variable("SolaceProtocol", Some(p), "string")])
  {
    var spec := p + "://" + h;
    SplitAfter(p, "://", h);
    SplitWhole(h, "://");
    SplitWhole(h, ":");
    var tail := "//" + h;
    assert spec == p + ":" + tail;
    SplitAfter(p, ":", tail);
    SplitWhole(tail, ":");
    assert Split(spec, ":") == [p, tail];
  }

  /** A host option without ':' or without '/' has no "://", so reading its host throws. */
  lemma {:induction false} HostWithoutScheme(spec: string)
    requires ':' !in spec || '/' !in spec
    ensures HostVariables(spec) == Err(HostSchemeMissing)
  {
    forall j: nat | j + 3 <= |spec| ensures !OccursAt(spec, "://", j) {
      var cut := spec[j..j + 3];
      assert cut[0] == spec[j] && cut[1] == spec[j + 1];
    }
  }

  /** The command-line default host. */
  lemma {:induction false} DefaultHost()
    ensures HostVariables("http://localhost:9000")
         == Ok([Variable("SolaceHost", Some("localhost"), "string"),
                Variable("SolacePort", Some("9000"), "string"),
                Variable("SolaceProtocol", Some("http"), "string")])
  {
    assert "http://localhost:9000" == "http" + "://" + "localhost" + ":" + "9000";
    HostRoundTrip("http", "localhost", "9000");
  }

  /** A bracketed IPv6 address is cut at its own colons: the host is "[" and the port is
      the empty text between the first two colons of "::1". */
  lemma {:induction false} BracketedHostExample()
    ensures HostVariables("http://[::1]:9000")
         == Ok([Variable("SolaceHost", Some("["), "string"),
                Variable("SolacePort", Some(""), "string"),
                Variable("SolaceProtocol", Some("http"), "string")])
  {
    var spec := "http://[::1]:9000";
    BracketedCuts();
    var r := HostVariables(spec);
    assert r.Ok?;
    assert r.value[0] == Variable("SolaceHost", Some("["), "string");
    assert r.value[1] == Variable("SolacePort", Some(""), "string");
    assert r.value[2] == Variable("SolaceProtocol", Some("http"), "string");
  }

  /** The cuts of "http://[::1]:9000" at "://" and at ':' that its host variables read. */
  lemma {:induction false} BracketedCuts()
    ensures IndexOf("http://[::1]:9000", "://", 0).Some?
    ensures TextBefore("http://[::1]:9000", "://") == "http"
    ensures TextBefore(TextAfter("http://[::1]:9000", "://"), ":") == "["
    ensures IndexOf("http://[::1]:9000", ":", 0).Some?
    ensures IndexOf(TextAfter("http://[::1]:9000", ":"), ":", 0).Some?
    ensures TextBefore(TextAfter(TextAfter("http://[::1]:9000", ":"), ":"), ":") == ""
  {
    BracketedScheme();
    BracketedColons();
  }

  /** The protocol and host of "http://[::1]:9000". */
  lemma {:induction false} BracketedScheme()
    ensures IndexOf("http://[::1]:9000", "://", 0).Some?
    ensures TextBefore("http://[::1]:9000", "://") == "http"
    ensures TextBefore(TextAfter("http://[::1]:9000", "://"), ":") == "["
  {
    assert "http://[::1]:9000" == "http" + "://" + "[::1]:9000";
    SchemeCut("http", "[::1]:9000");
    assert "[::1]:9000"[..1] == "[";
    CharCut("[::1]:9000", ':', 1);
  }

  /** The colon-separated fields of "http://[::1]:9000" up to its third one. */
  lemma {:induction false} BracketedColons()
    ensures IndexOf("http://[::1]:9000", ":", 0).Some?
    ensures IndexOf(TextAfter("http://[::1]:9000", ":"), ":", 0).Some?
    ensures TextBefore(TextAfter(TextAfter("http://[::1]:9000", ":"), ":"), ":") == ""
  {
    var spec := "http://[::1]:9000";
    assert spec[..4] == "http";
    CharCut(spec, ':', 4);
    var after := spec[5..];
    assert after == "//[::1]:9000";
    assert after[..3] == "//[";
    CharCut(after, ':', 3);
    var port := after[4..];
    assert port == ":1]:9000";
    CharCut(port, ':', 0);
  }

  /** A TLS broker address. */
  lemma {:induction false} SecureHostExample()
    ensures HostVariables("https://broker.example.com:9443")
         == Ok([Variable("SolaceHost", Some("broker.example.com"), "string"),
                Variable("SolacePort", Some("9443"), "string"),
                Variable("SolaceProtocol", Some("https"), "string")])
  {
    assert "https://broker.example.com:9443" == "https" + "://" + "broker.example.com" + ":" + "9443";
    HostRoundTrip("https", "broker.example.com", "9443");
  }

  /** Two malformed host options: one without any ':' and a bare `host:port`. */
  lemma {:induction false} MalformedHostExamples()
    ensures HostVariables("not-a-url") == Err(HostSchemeMissing)
    ensures HostVariables("localhost:9000") == Err(HostSchemeMissing)
  {
    HostWithoutScheme("not-a-url");
    assert '/' !in "localhost:9000";
    HostWithoutScheme("localhost:9000");
  }

  /** A user option `u:w` whose parts contain no ':' gives back exactly u and w. */
  lemma {:induction false} CredentialsRoundTrip(u: string, w: string)
    requires ':' !in u && ':' !in w
    ensures BasicAuth(u + ":" + w)
         == Auth("basic", [AuthEntry("username", Some(u), "string"),
                           AuthEntry("password", Some(w), "string")])
  {
    SplitAfter(u, ":", w);
    SplitWhole(w, ":");
  }

  /** Whatever follows a second ':' in the user option is dropped. */
  lemma {:induction false} CredentialsDropTail(u: string, w: string, x: string)
    requires ':' !in u && ':' !in w
    ensures BasicAuth(u + ":" + w + ":" + x) == BasicAuth(u + ":" + w)
  {
    CredentialsRoundTrip(u, w);
    assert u + ":" + w + ":" + x == u + ":" + (w + ":" + x);
    SplitAfter(u, ":", w + ":" + x);
    SplitAfter(w, ":", x);
  }

  /** A user option without ':' leaves the password `undefined`. */
  lemma {:induction false} CredentialsWithoutPassword(u: string)
    requires ':' !in u
    ensures BasicAuth(u)
         == Auth("basic", [AuthEntry("username", Some(u), "string"),
                           AuthEntry("password", None, "string")])
  {
    SplitWhole(u, ":");
  }

  /** The command-line default user. */
  lemma {:induction false} DefaultCredentials()
    ensures BasicAuth("default:default")
         == Auth("basic", [AuthEntry("username", Some("default"), "string"),
                           AuthEntry("password", Some("default"), "string")])
  {
    assert "default:default" == "default" + ":" + "default";
    CredentialsRoundTrip("default", "default");
  }

  /** An administrator account. */
  lemma {:induction false} AdminCredentials()
    ensures BasicAuth("admin:secret")
         == Auth("basic", [AuthEntry("username", Some("admin"), "string"),
                           AuthEntry("password", Some("secret"), "string")])
  {
    assert "admin:secret" == "admin" + ":" + "secret";
    CredentialsRoundTrip("admin", "secret");
  }
}
