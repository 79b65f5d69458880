/**
  The rules of the guard, stated on site, connection and headers alone: which request is refused with which status,
  what an admitted request looks like, what an authority names, and what the second pass lets through.
*/
module GuardRules {
  import opened Wrappers
  import opened Text
  import opened Leaf
  import opened Hostnames
  import opened Guard

  // ---- targets

  // `name`, a colon and decimal digits.
  predicate WithPort(authority: string, name: string, digits: string) {
    authority == name + ":" + digits && name != [] && ':' !in name && digits != [] && Digits(digits)
  }

  lemma WithPortSplits(authority: string, name: string, digits: string)
    requires WithPort(authority, name, digits)
    ensures NameAndPort(authority) == Some((name, digits))
  {
    NoColonIndex(name, digits);
    assert authority[..|name|] == name && authority[|name| + 1..] == digits;
  }

  lemma SplitsWithPort(authority: string)
    requires NameAndPort(authority).Some?
    ensures var split := NameAndPort(authority).value; WithPort(authority, split.0, split.1)
  {
    var k := ColonIndex(authority);
    assert authority == authority[..k] + ":" + authority[k + 1..];
  }

  // An authority with a port names that port, in 1..65535; one without names the port of the scheme. The host is a
  // valid host name either way.
  lemma TargetIff(authority: string, scheme: string, host: string, port: string)
    ensures Target(Some(authority), scheme) == Some((host, port)) <==>
            || (exists name, digits ::
                  && WithPort(authority, name, digits) && Hostname(Some(name)) == Some(host)
                  && 1 <= Decimal(digits) <= 65535 && port == PrintDecimal(Decimal(digits)))
            || (Hostname(Some(authority)) == Some(host) && port == if scheme == "https" then "443" else "80")
  {
    hide Hostname, Decimal, PrintDecimal, Digits, ColonIndex;
    var split := NameAndPort(authority);
    if split.Some? {
      SplitsWithPort(authority);
      ColonRefused(authority);
    }
    forall name, digits | WithPort(authority, name, digits) ensures split == Some((name, digits)) {
      WithPortSplits(authority, name, digits);
    }
  }

  lemma ColonRefused(authority: string)
    requires NameAndPort(authority).Some?
    ensures Hostname(Some(authority)).None?
  {
    hide Hostname, Digits;
    var lower := ToLower(authority);
    assert lower[ColonIndex(authority)] == ':' && ':' in lower;
    HostnameAgreesWithCanonicalName(authority);
    if Hostname(Some(authority)).Some? { HostnameFixed(authority); }
  }

  // ---- the first pass

  predicate AnyCase(s: string, lower: string, upper: string)
    requires |lower| == |upper|
  {
    |s| == |lower| && forall i :: 0 <= i < |s| ==> s[i] == lower[i] || s[i] == upper[i]
  }

  // The body can be read as it is.
  predicate Readable(headers: Headers) {
    "content-encoding" in headers ==>
      headers["content-encoding"] == "" || AnyCase(headers["content-encoding"], "identity", "IDENTITY")
  }

  // TLS where the scheme or the hop calls for it.
  predicate Secured(site: Site, connection: Connection) {
    site.scheme == "https" || site.role == "egress" ==> connection.tls
  }

  predicate Identified(site: Site, connection: Connection) { site.role == "egress" ==> connection.peerCertificate }

  // A canonical target, the one the TLS client asked for at an HTTPS workload, on an absolute path.
  predicate Addressed(site: Site, connection: Connection, headers: Headers) {
    && !(":method" in headers && headers[":method"] == "CONNECT")
    && ":path" in headers && headers[":path"] != "" && headers[":path"][0] == '/'
    && ":authority" in headers
    && var target := Target(Some(headers[":authority"]), site.scheme);
       && target.Some?
       && (site.role == "workload" && site.scheme == "https" ==>
             Hostname(Some(connection.serverName)) == Some(target.value.0))
  }

  lemma IdentityAnyCase(s: string)
    ensures LuaLower(s) == "identity" <==> AnyCase(s, "identity", "IDENTITY")
  {
    var r := LuaLower(s);
    if |s| == 8 {
      IdentityLetters(s, r);
      if AnyCase(s, "identity", "IDENTITY") {
        forall i | 0 <= i < 8 ensures r[i] == "identity"[i] {}
      }
    }
  }

  lemma IdentityLetters(s: string, r: string)
    requires |s| == 8 && r == LuaLower(s)
    ensures forall i :: 0 <= i < 8 ==> (r[i] == "identity"[i] <==> s[i] == "identity"[i] || s[i] == "IDENTITY"[i])
  {
    forall i | 0 <= i < 8 ensures r[i] == "identity"[i] <==> s[i] == "identity"[i] || s[i] == "IDENTITY"[i] {
      LowerLetter(s[i], "identity"[i], "IDENTITY"[i]);
    }
  }

  lemma LowerLetter(c: char, lower: char, upper: char)
    requires 'a' <= lower <= 'z' && upper == lower - 32 as char
    ensures (if 'A' <= c <= 'Z' then c + 32 as char else c) == lower <==> c == lower || c == upper
  {
  }

  // Which first pass is refused with which status, in the order of the checks.
  lemma FirstPass(site: Site, connection: Connection, headers: Headers)
    ensures var status := Pass(site, connection, Exchange(headers, None, None)).response;
            && (status == Some(415) <==> !Readable(headers))
            && (status == Some(403) <==>
                  Readable(headers) && Secured(site, connection) && !Identified(site, connection))
            && (status == Some(400) <==>
                  && Readable(headers)
                  && (!Secured(site, connection)
                      || (Identified(site, connection) && !Addressed(site, connection, headers))))
            && (status == None <==>
                  && Readable(headers) && Secured(site, connection) && Identified(site, connection)
                  && Addressed(site, connection, headers))
  {
    hide NameAndPort, Hostname, LuaLower, AnyCase, PrintDecimal;
    if "content-encoding" in headers { IdentityAnyCase(headers["content-encoding"]); }
  }

  // What an admitted request carries on to authorisation: its canonical target, recorded, and nothing else changed.
  lemma FirstPassShows(site: Site, connection: Connection, headers: Headers)
    requires Pass(site, connection, Exchange(headers, None, None)).response.None?
    ensures var e := Pass(site, connection, Exchange(headers, None, None));
            var target := Target(Some(headers[":authority"]), site.scheme);
            && target.Some?
            && e.headers == headers[":authority" := target.value.0 + ":" + target.value.1]
                                   [":scheme" := site.scheme]["x-forwarded-proto" := site.scheme]
            && e.recorded == Some(Recorded(target.value.0 + ":" + target.value.1, site.scheme, headers[":path"]))
  {
    hide Target, Hostname, LuaLower, AnyCase;
    FirstPass(site, connection, headers);
  }

  // ---- the second pass

  predicate Carries(headers: Headers, name: string, value: string) { name in headers && headers[name] == value }

  // A second pass refuses with 403 exactly when authority, scheme or path is not what was recorded, and otherwise
  // changes nothing.
  lemma SecondPass(site: Site, connection: Connection, headers: Headers, recorded: Recorded)
    ensures var e := Exchange(headers, Some(recorded), None);
            var same := && Carries(headers, ":authority", recorded.authority)
                        && Carries(headers, ":scheme", recorded.scheme)
                        && Carries(headers, ":path", recorded.path);
            Pass(site, connection, e) == if same then e else e.(response := Some(403))
  {
  }

  // ---- whole chains

  // A chain forwards exactly what is readable, secured, identified and addressed, once authorisation has allowed it and
  // left authority, scheme and path as it was shown them.
  lemma ForwardedExactly(site: Site, connection: Connection, headers: Headers, authorise: Authorisation)
    ensures Chain(site, connection, headers, authorise).Forwarded? <==>
            && Readable(headers) && Secured(site, connection) && Identified(site, connection)
            && Addressed(site, connection, headers)
            && var target := Target(Some(headers[":authority"]), site.scheme).value;
               var authority := target.0 + ":" + target.1;
               var shown := headers[":authority" := authority][":scheme" := site.scheme]
                                   ["x-forwarded-proto" := site.scheme];
               var allowed := authorise(shown);
               && allowed.Some?
               && Carries(allowed.value, ":authority", authority) && Carries(allowed.value, ":scheme", site.scheme)
               && Carries(allowed.value, ":path", headers[":path"])
  {
    hide Target, Hostname, AnyCase, Pass, Readable;
    FirstPass(site, connection, headers);
    var first := Pass(site, connection, Exchange(headers, None, None));
    if first.response.None? {
      FirstPassShows(site, connection, headers);
      var allowed := authorise(first.headers);
      if allowed.Some? {
        SecondPass(site, connection, allowed.value, first.recorded.value);
      }
    }
  }
}
