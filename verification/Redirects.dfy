/** Which redirect URIs a client may register, and when a presented one matches a registered one. */
module Redirects {
  import opened Prelude

  /** Reading the port raises an error unless it is absent or a number in range. */
  datatype Port = NoPort | PortNumber(number: nat) | BadPort

  /** What the URL parser reports about a redirect URI. */
  datatype Url = Url(
    scheme: string,
    hostname: Option<string>,
    port: Port,
    path: string,
    params: string,
    query: string,
    fragment: string,
    username: Option<string>,
    password: Option<string>)

  /** The URL parser: `None` where it rejects the text. */
  type Parser = string -> Option<Url>

  const LOOPBACK_HOSTS: seq<string> := ["127.0.0.1", "localhost", "::1"]

  predicate IsLoopback(parse: Parser, uri: string) {
    match parse(uri)
    case None => false
    case Some(u) => u.scheme == "http" && !u.port.BadPort? && u.hostname.Some? && u.hostname.value in LOOPBACK_HOSTS
  }

  predicate RedirectAllowed(parse: Parser, uri: string) {
    match parse(uri)
    case None => false
    case Some(u) =>
      && !u.port.BadPort?
      && u.fragment == ""
      && '#' !in uri
      && u.username.None?
      && u.password.None?
      && ((u.scheme == "https" && u.hostname.Some? && u.hostname.value != "") || IsLoopback(parse, uri))
  }

  predicate SameButPort(a: Url, b: Url) {
    && a.hostname == b.hostname
    && a.path == b.path
    && a.params == b.params
    && a.query == b.query
    && a.fragment == b.fragment
    && a.username == b.username
    && a.password == b.password
  }

  predicate RedirectMatches(parse: Parser, registered: string, presented: string) {
    if registered == presented then true
    else if !(IsLoopback(parse, registered) && IsLoopback(parse, presented)) then false
    else SameButPort(parse(registered).value, parse(presented).value)
  }

  /** Matching is an equivalence, so a URI checked against a checked URI is checked against the registered one. */
  lemma RedirectMatchesIsAnEquivalence(parse: Parser, a: string, b: string, c: string)
    ensures RedirectMatches(parse, a, a)
    ensures RedirectMatches(parse, a, b) ==> RedirectMatches(parse, b, a)
    ensures RedirectMatches(parse, a, b) && RedirectMatches(parse, b, c) ==> RedirectMatches(parse, a, c)
  {
  }

  /** A plain http URI on one of the three loopback hosts, with a port that can be read. */
  predicate LoopbackUrl(u: Option<Url>) {
    u.Some? && u.value.scheme == "http" && !u.value.port.BadPort?
    && u.value.hostname in {Some("127.0.0.1"), Some("localhost"), Some("::1")}
  }

  /** The exact match is relaxed for loopback URIs alone, and in nothing but the port, which may then be any. */
  lemma OnlyALoopbackPortMayDiffer(parse: Parser, registered: string, presented: string)
    ensures RedirectMatches(parse, registered, presented) <==>
            || registered == presented
            || (&& LoopbackUrl(parse(registered)) && LoopbackUrl(parse(presented))
                && parse(presented).value == parse(registered).value.(port := parse(presented).value.port))
  {
  }

  /** What may be registered: https with a host, or plain http on a loopback host, with a readable port, without a fragment
      and without credentials. */
  lemma OnlyHttpsOrLoopbackIsAllowed(parse: Parser, uri: string)
    ensures RedirectAllowed(parse, uri) <==>
            && parse(uri).Some?
            && var u := parse(uri).value;
            && (LoopbackUrl(Some(u)) || (u.scheme == "https" && u.hostname.Some? && |u.hostname.value| > 0 && !u.port.BadPort?))
            && u.fragment == "" && '#' !in uri && u.username.None? && u.password.None?
  {
  }

  /** A presented URI that matches an allowed one never leaves the registered host, and is itself
      allowed as soon as its text carries no bare `#`. */
  lemma MatchesStayAllowed(parse: Parser, registered: string, presented: string)
    requires RedirectAllowed(parse, registered) && RedirectMatches(parse, registered, presented)
    ensures parse(presented).Some? && parse(presented).value.hostname == parse(registered).value.hostname
    ensures RedirectAllowed(parse, presented) <==> '#' !in presented
  {
  }
}
