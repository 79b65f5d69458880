/**
  The request guard: the target a request names, the check before authorisation that rewrites the request to its
  canonical target and records it, and the check after authorisation that nothing recorded has changed.
*/
module Guard {
  import opened Wrappers
  import opened Text
  import opened Leaf
  import opened Hostnames

  type Headers = map<string, string>

  function Get(headers: Headers, name: string): Option<string> {
    if name in headers then Some(headers[name]) else None
  }

  // ---- targets

  function ColonIndex(s: string): (k: nat)
    ensures k <= |s| && ':' !in s[..k] && (k < |s| ==> s[k] == ':')
  {
    if s == [] || s[0] == ':' then 0 else 1 + ColonIndex(s[1..])
  }

  // The match of "^([^:]+):(%d+)$": a name without a colon, a colon, and digits to the end.
  function NameAndPort(authority: string): Option<(string, string)> {
    var k := ColonIndex(authority);
    if 0 < k < |authority| - 1 && Digits(authority[k + 1..]) then Some((authority[..k], authority[k + 1..])) else None
  }

  function DefaultPort(scheme: string): string { if scheme == "https" then "443" else "80" }

  // The guard's `target`: canonical host name and decimal port.
  function Target(authority: Option<string>, scheme: string): Option<(string, string)> {
    if authority.None? then None
    else
      var split := NameAndPort(authority.value);
      var name := Hostname(Some(if split.Some? then split.value.0 else authority.value));
      if name.None? then None
      else if split.None? then Some((name.value, DefaultPort(scheme)))
      else
        var port := Decimal(split.value.1);
        if port < 1 || port > 65535 then None else Some((name.value, PrintDecimal(port)))
  }

  function Joined(target: (string, string)): string { target.0 + ":" + target.1 }

  // ---- a canonical target is a fixed point

  lemma HostnameFixed(s: string)
    requires Hostname(Some(s)).Some?
    ensures var name := Hostname(Some(s)).value; Hostname(Some(name)) == Some(name) && ':' !in name && name != []
  {
    hide MatchQuad, Runs, DoubleDot;
    var name := Hostname(Some(s)).value;
    HostnameAgreesWithCanonicalName(s);
    AsciiBytes(s);
    forall c | c in name ensures c < '\U{80}' && c != ':' && !('A' <= c <= 'Z') { assert HostChar(c); }
    AsciiBytes(name);
    assert LuaLower(name) == name;
  }

  lemma {:induction false} NoColonIndex(name: string, rest: string)
    requires ':' !in name
    ensures ColonIndex(name + ":" + rest) == |name|
  {
    if name != [] {
      NoColonIndex(name[1..], rest);
      assert (name + ":" + rest)[1..] == name[1..] + ":" + rest;
    }
  }

  // Whatever the scheme, a canonical target reads back as itself; its port is between 1 and 65535.
  lemma TargetFixed(authority: Option<string>, scheme: string, other: string)
    requires Target(authority, scheme).Some?
    ensures var t := Target(authority, scheme).value;
            && Target(Some(Joined(t)), other) == Some(t)
            && Digits(t.1) && 1 <= Decimal(t.1) <= 65535 && PrintDecimal(Decimal(t.1)) == t.1
            && Hostname(Some(t.0)) == Some(t.0)
  {
    hide Hostname;
    var t := Target(authority, scheme).value;
    var split := NameAndPort(authority.value);
    HostnameFixed(if split.Some? then split.value.0 else authority.value);
    if split.Some? {
      PrintParse(Decimal(split.value.1));
    } else {
      DefaultPortFixed(scheme);
    }
    NoColonIndex(t.0, t.1);
    assert Joined(t)[..|t.0|] == t.0 && Joined(t)[|t.0| + 1..] == t.1;
    assert NameAndPort(Joined(t)) == Some(t);
  }

  lemma DefaultPortFixed(scheme: string)
    ensures var p := DefaultPort(scheme);
            p != [] && Digits(p) && 1 <= Decimal(p) <= 65535 && PrintDecimal(Decimal(p)) == p
  {
    hide Decimal, PrintDecimal, Digits;
    PrintedPorts();
    PrintParse(443);
    PrintParse(80);
  }

  lemma PrintedPorts()
    ensures PrintDecimal(443) == "443" && PrintDecimal(80) == "80"
  {
    hide Digits;
    assert PrintDecimal(80) == "80" by { assert PrintDecimal(80) == PrintDecimal(8) + ['0']; }
    assert PrintDecimal(44) == "44" by { assert PrintDecimal(44) == PrintDecimal(4) + ['4']; }
    assert PrintDecimal(443) == PrintDecimal(44) + ['3'];
  }

  // ---- the guard

  /** The target recorded before authorisation. */
  datatype Recorded = Recorded(authority: string, scheme: string, path: string)

  /** Facts of the downstream connection: whether it is TLS with a peer certificate, and its server name (SNI). */
  datatype Connection = Connection(tls: bool, peerCertificate: bool, serverName: string)

  /** Where the guard runs; both come with its source, not with the request. */
  datatype Site = Site(role: string, scheme: string)

  /** A request as the filter sees it; a response, once given, ends it. */
  datatype Exchange = Exchange(headers: Headers, recorded: Option<Recorded>, response: Option<nat>)

  predicate EncodingRefused(headers: Headers) {
    var encoding := Get(headers, "content-encoding");
    encoding.Some? && encoding.value != "" && LuaLower(encoding.value) != "identity"
  }

  predicate TargetRefused(headers: Headers) {
    var path := Get(headers, ":path");
    Get(headers, ":method") == Some("CONNECT") || path.None? || path.value == [] || path.value[0] != '/'
  }

  // The status the first pass refuses a request with, if it does.
  function Refusal(site: Site, connection: Connection, headers: Headers): Option<nat> {
    if EncodingRefused(headers) then Some(415)
    else if (site.scheme == "https" || site.role == "egress") && !connection.tls then Some(400)
    else if site.role == "egress" && !connection.peerCertificate then Some(403)
    else
      var target := Target(Get(headers, ":authority"), site.scheme);
      if target.None? then Some(400)
      else if site.role == "workload" && site.scheme == "https"
              && Hostname(Some(connection.serverName)) != Some(target.value.0) then Some(400)
      else if TargetRefused(headers) then Some(400)
      else None
  }

  function Canonical(headers: Headers, authority: string, scheme: string): Headers {
    headers[":authority" := authority][":scheme" := scheme]["x-forwarded-proto" := scheme]
  }

  predicate Unchanged(headers: Headers, recorded: Recorded) {
    && Get(headers, ":authority") == Some(recorded.authority)
    && Get(headers, ":path") == Some(recorded.path)
    && Get(headers, ":scheme") == Some(recorded.scheme)
  }

  // One run of the filter.
  function Pass(site: Site, connection: Connection, e: Exchange): Exchange {
    if e.recorded.Some? then
      if Unchanged(e.headers, e.recorded.value) then e else e.(response := Some(403))
    else
      var refusal := Refusal(site, connection, e.headers);
      if refusal.Some? then e.(response := refusal)
      else
        var authority := Joined(Target(Get(e.headers, ":authority"), site.scheme).value);
        Exchange(Canonical(e.headers, authority, site.scheme),
                 Some(Recorded(authority, site.scheme, e.headers[":path"])), e.response)
  }

  /** The filter's view of one request, updated in place. */
  class Handle {
    var headers: Headers
    var recorded: Option<Recorded>
    var response: Option<nat>
    const connection: Connection

    constructor (headers: Headers, connection: Connection)
      ensures View() == Exchange(headers, None, None) && this.connection == connection
    {
      this.headers, this.recorded, this.response, this.connection := headers, None, None, connection;
    }

    ghost function View(): Exchange
      reads this
    {
      Exchange(headers, recorded, response)
    }

    method Respond(status: nat)
      modifies `response
      ensures response == Some(status)
    {
      response := Some(status);
    }

    method Replace(name: string, value: string)
      modifies `headers
      ensures headers == old(headers)[name := value]
    {
      headers := headers[name := value];
    }

    method OnRequest(site: Site)
      modifies this
      ensures View() == Pass(site, connection, old(View()))
    {
      hide Target, Hostname, LuaLower;
      if recorded.Some? {
        var authorized := recorded.value;
        if Get(headers, ":authority") != Some(authorized.authority) || Get(headers, ":path") != Some(authorized.path)
           || Get(headers, ":scheme") != Some(authorized.scheme) {
          Respond(403);
        }
        return;
      }
      var encoding := Get(headers, "content-encoding");
      if encoding.Some? && encoding.value != "" && LuaLower(encoding.value) != "identity" {
        Respond(415);
        return;
      }
      if (site.scheme == "https" || site.role == "egress") && !connection.tls { Respond(400); return; }
      if site.role == "egress" && !connection.peerCertificate { Respond(403); return; }
      var target := Target(Get(headers, ":authority"), site.scheme);
      if target.None? { Respond(400); return; }
      var (name, port) := target.value;
      if site.role == "workload" && site.scheme == "https" && Hostname(Some(connection.serverName)) != Some(name) {
        Respond(400);
        return;
      }
      var path := Get(headers, ":path");
      if Get(headers, ":method") == Some("CONNECT") || path.None? || path.value == [] || path.value[0] != '/' {
        Respond(400);
        return;
      }
      Replace(":authority", name + ":" + port);
      Replace(":scheme", site.scheme);
      Replace("x-forwarded-proto", site.scheme);
      recorded := Some(Recorded(name + ":" + port, site.scheme, path.value));
    }
  }

  // ---- whole filter chains

  // The authorisation filter between the two passes: it denies, or lets any headers through.
  type Authorisation = Headers -> Option<Headers>

  /** How a chain ends: answered here, or forwarded with the headers authorisation saw and those that leave. */
  datatype Outcome = Answered | Forwarded(authorised: Headers, leaving: Headers)

  function Chain(site: Site, connection: Connection, headers: Headers, authorise: Authorisation): Outcome {
    var first := Pass(site, connection, Exchange(headers, None, None));
    if first.response.Some? then Answered
    else
      var authorised := authorise(first.headers);
      if authorised.None? then Answered
      else
        var second := Pass(site, connection, first.(headers := authorised.value));
        if second.response.Some? then Answered else Forwarded(first.headers, second.headers)
  }

  function Triple(headers: Headers): (Option<string>, Option<string>, Option<string>) {
    (Get(headers, ":authority"), Get(headers, ":scheme"), Get(headers, ":path"))
  }

  // What leaves a chain carries exactly the target that was authorised: canonical authority, the site's scheme and the
  // path of the request; at an HTTPS workload the host is the name the certificate service makes of the SNI.
  lemma ForwardedTarget(site: Site, connection: Connection, headers: Headers, authorise: Authorisation)
    requires Chain(site, connection, headers, authorise).Forwarded?
    ensures var out := Chain(site, connection, headers, authorise);
            var target := Target(Get(headers, ":authority"), site.scheme);
            && target.Some?
            && Triple(out.leaving) == Triple(out.authorised)
            && Triple(out.leaving) == (Some(Joined(target.value)), Some(site.scheme), Get(headers, ":path"))
            && CanonicalName(target.value.0) == Ok(target.value.0)
            && (site.role == "workload" && site.scheme == "https" ==>
                  CanonicalName(connection.serverName) == Ok(target.value.0))
  {
    hide Target, Hostname, LuaLower, CanonicalName;
    var target := Target(Get(headers, ":authority"), site.scheme);
    TargetFixed(Get(headers, ":authority"), site.scheme, site.scheme);
    HostnameAgreesWithCanonicalName(target.value.0);
    HostnameAgreesWithCanonicalName(connection.serverName);
  }

  // The egress chain, given the target a workload chain of the same scheme forwarded, authorises that very target.
  lemma HopsAuthoriseSameTarget(workload: Site, egress: Site, first: Connection, second: Connection, headers: Headers,
                                arriving: Headers, atWorkload: Authorisation, atEgress: Authorisation)
    requires workload.scheme == egress.scheme
    requires var out := Chain(workload, first, headers, atWorkload);
             && out.Forwarded?
             && Get(arriving, ":authority") == Get(out.leaving, ":authority")
             && Get(arriving, ":path") == Get(out.leaving, ":path")
    requires Chain(egress, second, arriving, atEgress).Forwarded?
    ensures Triple(Chain(egress, second, arriving, atEgress).authorised)
            == Triple(Chain(workload, first, headers, atWorkload).authorised)
  {
    hide Target, Hostname, LuaLower, CanonicalName, Chain;
    ForwardedTarget(workload, first, headers, atWorkload);
    ForwardedTarget(egress, second, arriving, atEgress);
    TargetFixed(Get(headers, ":authority"), workload.scheme, egress.scheme);
  }
}
