/**
 * The HTTP layer of the provider: how a URL is parsed far enough to choose
 * between plain HTTP and TLS, how an action name selects the request verb,
 * and `ApiCall`, which builds one request object step by step and hands it
 * to the server. The server itself (socket, TLS handshake, GitLab) is a
 * parameter: a function from the request sent to the reply obtained.
 */
module Http {
  import opened Wrappers
  import opened RubyString
  import opened Json

  // ---------------------------------------------------------------------
  // Verbs
  // ---------------------------------------------------------------------

  datatype Verb = Get | Post | Put | Delete

  function VerbName(v: Verb): string {
    match v
    case Get => "GET"
    case Post => "POST"
    case Put => "PUT"
    case Delete => "DELETE"
  }

  /**
   * The request class api_call picks for an action name: the first of
   * `post`, `put`, `delete` that occurs anywhere in the name, ignoring
   * case, and GET when none does.
   */
  function SelectVerb(action: string): (v: Verb)
    ensures v == Post <==> Includes(Downcase(action), "post")
    ensures v == Put <==> !Includes(Downcase(action), "post") && Includes(Downcase(action), "put")
    ensures v == Delete <==>
      !Includes(Downcase(action), "post") && !Includes(Downcase(action), "put")
      && Includes(Downcase(action), "delete")
    ensures v == Get <==>
      !Includes(Downcase(action), "post") && !Includes(Downcase(action), "put")
      && !Includes(Downcase(action), "delete")
  {
    var a := Downcase(action);
    if Includes(a, "post") then Post
    else if Includes(a, "put") then Put
    else if Includes(a, "delete") then Delete
    else Get
  }

  lemma NoOccurrenceShort(s: string, p: string)
    requires |s| < |p|
    ensures !Includes(s, p)
  {
  }

  /** A pattern whose first character never appears in `s` does not occur in it. */
  lemma NoOccurrenceFirst(s: string, p: string)
    requires |p| > 0
    requires forall i :: 0 <= i < |s| ==> s[i] != p[0]
    ensures !Includes(s, p)
  {
  }

  /** The lower-case spellings the provider's literals take. */
  lemma DowncaseGet()
    ensures Downcase("GET") == "get"
  {
    var g := Downcase("GET");
    assert g[0] == 'g' && g[1] == 'e' && g[2] == 't';
  }

  lemma DowncasePost()
    ensures Downcase("POST") == "post"
  {
    var o := Downcase("POST");
    assert o[0] == 'p' && o[1] == 'o' && o[2] == 's' && o[3] == 't';
  }

  lemma DowncasePut()
    ensures Downcase("PUT") == "put"
  {
    var u := Downcase("PUT");
    assert u[0] == 'p' && u[1] == 'u' && u[2] == 't';
  }

  lemma DowncaseDelete()
    ensures Downcase("DELETE") == "delete"
  {
    var d := Downcase("DELETE");
    assert d[0] == 'd' && d[1] == 'e' && d[2] == 'l' && d[3] == 'e' && d[4] == 't' && d[5] == 'e';
  }

  lemma DowncaseToken()
    ensures Downcase("PRIVATE-TOKEN") == "private-token"
  {
    var h := Downcase("PRIVATE-TOKEN");
    assert h[0] == 'p' && h[1] == 'r' && h[2] == 'i' && h[3] == 'v' && h[4] == 'a' && h[5] == 't';
    assert h[6] == 'e' && h[7] == '-' && h[8] == 't' && h[9] == 'o' && h[10] == 'k' && h[11] == 'e';
    assert h[12] == 'n';
  }

  lemma DowncaseLiterals()
    ensures Downcase("GET") == "get"
    ensures Downcase("POST") == "post"
    ensures Downcase("PUT") == "put"
    ensures Downcase("DELETE") == "delete"
    ensures Downcase("PRIVATE-TOKEN") == "private-token"
  {
    DowncaseGet();
    DowncasePost();
    DowncasePut();
    DowncaseDelete();
    DowncaseToken();
  }

  /** The four names the provider passes select the four verbs. */
  lemma SelectVerbOfName(v: Verb)
    ensures SelectVerb(VerbName(v)) == v
  {
    DowncaseLiterals();
    match v
    case Get =>
      NoOccurrenceShort("get", "post");
      NoOccurrenceShort("get", "delete");
      NoOccurrenceFirst("get", "put");
    case Post =>
      assert OccursAt("post", "post", 0);
    case Put =>
      NoOccurrenceShort("put", "post");
      assert OccursAt("put", "put", 0);
    case Delete =>
      NoOccurrenceFirst("delete", "post");
      NoOccurrenceFirst("delete", "put");
      assert OccursAt("delete", "delete", 0);
  }

  // ---------------------------------------------------------------------
  // URIs
  // ---------------------------------------------------------------------

  /** The part of a parsed URI that decides the transport. */
  datatype Uri = Uri(scheme: string, port: Option<int>)

  /** Characters a URI may contain. */
  predicate UriChar(c: char) {
    || 'a' <= c <= 'z' || 'A' <= c <= 'Z' || '0' <= c <= '9'
    || c in "-._~:/?#[]@!$&'()*+,;=%"
  }

  predicate SchemeChar(c: char) {
    'a' <= c <= 'z' || 'A' <= c <= 'Z' || '0' <= c <= '9' || c == '+' || c == '-' || c == '.'
  }

  /** The index of the first character of `s` in `cs`, or |s| when there is none. */
  function FindFirst(s: string, cs: set<char>): (k: nat)
    ensures k <= |s|
    ensures forall i :: 0 <= i < k ==> s[i] !in cs
    ensures k < |s| ==> s[k] in cs
  {
    if s == [] then 0
    else if s[0] in cs then 0
    else 1 + FindFirst(s[1..], cs)
  }

  /** The index just after the last character of `s` in `cs`, or 0 when there is none. */
  function AfterLast(s: string, cs: set<char>): (k: nat)
    ensures k <= |s|
    ensures forall i :: k <= i < |s| ==> s[i] !in cs
    ensures k > 0 ==> s[k - 1] in cs
  {
    if s == [] then 0
    else if s[|s| - 1] in cs then |s|
    else AfterLast(s[..|s| - 1], cs)
  }

  /** The port a scheme implies when the URI gives none. */
  function DefaultPort(scheme: string): Option<int> {
    if scheme == "http" || scheme == "ws" then Some(80)
    else if scheme == "https" || scheme == "wss" then Some(443)
    else if scheme == "ftp" then Some(21)
    else if scheme == "ldap" then Some(389)
    else if scheme == "ldaps" then Some(636)
    else None
  }

  /** The scheme of a URL, lower-cased, or "" when it has none. */
  function SchemeOf(url: string): string {
    var k := FindFirst(url, {':'});
    if 0 < k < |url| && 'a' <= Lower(url[0]) <= 'z' && forall i :: 0 <= i < k ==> SchemeChar(url[i])
    then Downcase(url[..k])
    else ""
  }

  /** The port text of the authority after `//`: what follows the last ':' after the last '@'. */
  function PortText(rest: string): Option<string> {
    var authority := rest[..FindFirst(rest, {'/', '?', '#'})];
    var hostPort := authority[AfterLast(authority, {'@'})..];
    var k := AfterLast(hostPort, {':'});
    if k == 0 then None else Some(hostPort[k..])
  }

  /** The port of `scheme://rest`: given after the host, or the scheme's default; None when not a number. */
  function AuthorityPort(scheme: string, rest: string): Option<Option<int>> {
    match PortText(rest)
    case None => Some(DefaultPort(scheme))
    case Some(p) =>
      if p == [] then Some(DefaultPort(scheme))
      else if AllDigits(p) then Some(Some(ToI(p)))
      else None
  }

  /**
   * URI.parse, as far as the transport needs it: the lower-cased scheme and
   * the port, given or implied by the scheme. None is the InvalidURIError it
   * raises for a character no URI may hold or a port that is not a number.
   */
  function ParseUri(url: string): (r: Option<Uri>)
    ensures r.Some? ==> forall i :: 0 <= i < |url| ==> UriChar(url[i])
    ensures r.Some? ==> r.value.scheme == SchemeOf(url)
  {
    if exists i :: 0 <= i < |url| && !UriChar(url[i]) then None
    else
      var scheme := SchemeOf(url);
      var afterScheme := if scheme == "" then url else url[|scheme| + 1..];
      if |afterScheme| >= 2 && afterScheme[..2] == "//" then
        match AuthorityPort(scheme, afterScheme[2..])
        case None => None
        case Some(port) => Some(Uri(scheme, port))
      else Some(Uri(scheme, DefaultPort(scheme)))
  }

  /** api_call turns TLS on when the port is 443 or the scheme is https. */
  predicate UseSsl(u: Uri) {
    u.port == Some(443) || u.scheme == "https"
  }

  // ---------------------------------------------------------------------
  // Requests
  // ---------------------------------------------------------------------

  /** One request as it leaves the client. Header names are stored lower-cased, as Net::HTTP does. */
  datatype HttpRequest = HttpRequest(
    verb: Verb,
    url: string,
    useSsl: bool,
    headers: map<string, string>,
    body: Option<Object>)

  /** The request api_call sends for its arguments, once the URL has parsed. */
  function Outgoing(action: string, url: string, u: Uri, data: Option<Object>, token: string): HttpRequest {
    HttpRequest(
      SelectVerb(action), url, UseSsl(u),
      map["content-type" := "application/json", "private-token" := token],
      data)
  }

  /** A request object that api_call fills in step by step. */
  class Request {
    const verb: Verb
    const url: string
    var headers: map<string, string>
    var body: Option<Object>

    constructor (verb: Verb, url: string)
      ensures this.verb == verb && this.url == url
      ensures headers == map[] && body == None
    {
      this.verb := verb;
      this.url := url;
      headers := map[];
      body := None;
    }

    method SetContentType(mediaType: string)
      modifies this
      ensures headers == old(headers)["content-type" := mediaType]
      ensures body == old(body)
    {
      headers := headers["content-type" := mediaType];
    }

    /** Adds a header; its name is case-insensitive and kept lower-cased. */
    method AddField(name: string, value: string)
      modifies this
      ensures headers == old(headers)[Downcase(name) := value]
      ensures body == old(body)
    {
      headers := headers[Downcase(name) := value];
    }

    method SetBody(data: Object)
      modifies this
      ensures body == Some(data)
      ensures headers == old(headers)
    {
      body := Some(data);
    }

    /** The request as it is sent on a connection with or without TLS. */
    function Sent(useSsl: bool): HttpRequest
      reads this
    {
      HttpRequest(verb, url, useSsl, headers, body)
    }
  }

  /** The message of the InvalidURIError raised for a URL that does not parse. */
  const InvalidUri: string := "bad URI"

  /** The message of the error raised when the parsed URI has no request path. */
  const NoRequestUri: string := "no HTTP request path given"

  /** The URI classes that define `request_uri`: URI::HTTP, URI::HTTPS, URI::WS and URI::WSS. */
  predicate RequestScheme(scheme: string) {
    scheme == "http" || scheme == "https" || scheme == "ws" || scheme == "wss"
  }

  /**
   * Whether `uri.request_uri` gives a path to build the request with. Any
   * other scheme, or a URL without one, parses to a class that lacks the
   * method (NoMethodError); an opaque URL such as `http:x` has no path, and
   * Net::HTTP refuses to build a request without one (ArgumentError).
   */
  predicate HasRequestUri(url: string) {
    var scheme := SchemeOf(url);
    && RequestScheme(scheme)
    && |scheme| < |url|
    && var rest := url[|scheme| + 1..];
       rest == [] || rest[0] == '/' || rest[0] == '?' || rest[0] == '#'
  }

  /** A URL api_call sends a request to. */
  predicate Sendable(url: string) {
    ParseUri(url).Some? && HasRequestUri(url)
  }

  /**
   * One api_call as a value: the reply, and the requests that reached the
   * server (none when the URL does not parse or has no request path, else
   * exactly one).
   */
  function Exchange(action: string, url: string, data: Option<Object>, token: string,
                    server: HttpRequest -> Reply): (Reply, seq<HttpRequest>)
  {
    match ParseUri(url)
    case None => (Raised(InvalidUri), [])
    case Some(u) =>
      if !HasRequestUri(url) then (Raised(NoRequestUri), [])
      else
        var req := Outgoing(action, url, u, data, token);
        (server(req), [req])
  }

  /**
   * An exchange sends nothing when the URL does not parse or has no request
   * path, and otherwise exactly one request, carrying the verb chosen for
   * the action, the URL, the data and the token; the reply is the server's
   * answer to it.
   */
  lemma ExchangeSendsOne(action: string, url: string, data: Option<Object>, token: string,
                         server: HttpRequest -> Reply)
    ensures var (reply, sent) := Exchange(action, url, data, token, server);
      && |sent| <= 1
      && (sent == [] <==> !Sendable(url))
      && (ParseUri(url).None? ==> reply == Raised(InvalidUri))
      && (ParseUri(url).Some? && !HasRequestUri(url) ==> reply == Raised(NoRequestUri))
      && (|sent| == 1 ==> reply == server(sent[0]))
      && (forall q :: q in sent ==>
            && q.verb == SelectVerb(action) && q.url == url && q.body == data
            && q.useSsl == UseSsl(ParseUri(url).value)
            && q.headers == map["content-type" := "application/json", "private-token" := token])
  {
  }

  /** To a sendable URL an exchange sends exactly the outgoing request. */
  lemma ExchangeSendable(action: string, url: string, data: Option<Object>, token: string,
                         server: HttpRequest -> Reply)
    requires Sendable(url)
    ensures var req := Outgoing(action, url, ParseUri(url).value, data, token);
      Exchange(action, url, data, token, server) == (server(req), [req])
  {
  }

  /**
   * api_call: parses the URL, picks TLS and the verb, builds the request
   * and sends it. `sent` lists what reached the server (nothing when the
   * URL does not parse or has no request path).
   */
  method ApiCall(action: string, url: string, data: Option<Object>, token: string,
                 server: HttpRequest -> Reply)
    returns (reply: Reply, sent: seq<HttpRequest>)
    ensures ParseUri(url).None? ==> sent == [] && reply == Raised(InvalidUri)
    ensures ParseUri(url).Some? && !HasRequestUri(url) ==> sent == [] && reply == Raised(NoRequestUri)
    ensures Sendable(url) ==>
      && sent == [Outgoing(action, url, ParseUri(url).value, data, token)]
      && reply == server(sent[0])
    ensures (reply, sent) == Exchange(action, url, data, token, server)
  {
    var parsed := ParseUri(url);
    if parsed.None? {
      return Raised(InvalidUri), [];
    }
    var useSsl := UseSsl(parsed.value);
    if !HasRequestUri(url) {
      return Raised(NoRequestUri), [];
    }
    var req := new Request(SelectVerb(action), url);
    req.SetContentType("application/json");
    DowncaseLiterals();
    req.AddField("PRIVATE-TOKEN", token);
    if data.Some? {
      req.SetBody(data.value);
    }
    var request := req.Sent(useSsl);
    sent := [request];
    reply := server(request);
  }

  // ---------------------------------------------------------------------
  // Transport properties
  // ---------------------------------------------------------------------

  lemma {:induction false} FindFirstAppend(a: string, b: string, cs: set<char>)
    requires forall i :: 0 <= i < |a| ==> a[i] !in cs
    ensures FindFirst(a + b, cs) == |a| + FindFirst(b, cs)
  {
    if a != [] {
      assert (a + b)[0] == a[0];
      assert (a + b)[1..] == a[1..] + b;
      FindFirstAppend(a[1..], b, cs);
    } else {
      assert a + b == b;
    }
  }

  lemma {:induction false} AfterLastAppend(a: string, b: string, cs: set<char>)
    requires forall i :: 0 <= i < |b| ==> b[i] !in cs
    ensures AfterLast(a + b, cs) == AfterLast(a, cs)
  {
    if b == [] {
      assert a + b == a;
    } else {
      var c := a + b;
      assert c[|c| - 1] == b[|b| - 1];
      assert c[..|c| - 1] == a + b[..|b| - 1];
      AfterLastAppend(a, b[..|b| - 1], cs);
    }
  }

  /** A non-empty word of lower-case ASCII letters. */
  predicate LowerWord(s: string) {
    |s| > 0 && forall i :: 0 <= i < |s| ==> 'a' <= s[i] <= 'z'
  }

  lemma HttpSchemesLower()
    ensures LowerWord("http") && LowerWord("https")
  {
    forall i | 0 <= i < 5 ensures 'a' <= "https"[i] <= 'z' {
      assert i == 0 || i == 1 || i == 2 || i == 3 || i == 4;
    }
    forall i | 0 <= i < 4 ensures 'a' <= "http"[i] <= 'z' {
      assert i == 0 || i == 1 || i == 2 || i == 3;
    }
  }

  /** A lower-case scheme followed by ':' is read back as that scheme. */
  lemma SchemeOfPrefix(scheme: string, rest: string)
    requires LowerWord(scheme)
    ensures SchemeOf(scheme + ":" + rest) == scheme
  {
    var url := scheme + ":" + rest;
    FindFirstAppend(scheme, ":" + rest, {':'});
    assert url == scheme + (":" + rest);
    assert url[..|scheme|] == scheme;
    assert Downcase(scheme) == scheme;
  }

  /** In `scheme://rest` the scheme is read back and what follows its colon is `//` then rest. */
  lemma HierarchicalParts(scheme: string, rest: string)
    requires LowerWord(scheme)
    ensures var url := scheme + "://" + rest;
      && SchemeOf(url) == scheme
      && |url[|scheme| + 1..]| >= 2
      && url[|scheme| + 1..][..2] == "//"
      && url[|scheme| + 1..][2..] == rest
  {
    var url := scheme + "://" + rest;
    SchemeOfPrefix(scheme, "//" + rest);
    assert url == scheme + ":" + ("//" + rest);
    var afterScheme := url[|scheme| + 1..];
    assert afterScheme == "//" + rest;
    assert afterScheme[2..] == rest;
  }

  /** `scheme://rest` with a lower-case scheme is parsed through its authority. */
  lemma ParseHierarchical(scheme: string, rest: string)
    requires LowerWord(scheme)
    requires ParseUri(scheme + "://" + rest).Some?
    ensures AuthorityPort(scheme, rest).Some?
    ensures ParseUri(scheme + "://" + rest).value == Uri(scheme, AuthorityPort(scheme, rest).value)
  {
    HierarchicalParts(scheme, rest);
  }

  /** Every `http://` or `https://` URL has a request path. */
  lemma HttpUrlHasRequestUri(scheme: string, rest: string)
    requires scheme == "http" || scheme == "https"
    ensures HasRequestUri(scheme + "://" + rest)
  {
    HttpSchemesLower();
    HierarchicalParts(scheme, rest);
    var url := scheme + "://" + rest;
    assert url[|scheme| + 1..][0] == url[|scheme| + 1..][..2][0] == '/';
  }

  /** A URL whose scheme has no `request_uri` (ftp, ldap, mailto, ...) never reaches the server. */
  lemma OtherSchemesSendNothing(scheme: string, rest: string, action: string, data: Option<Object>,
                                token: string, server: HttpRequest -> Reply)
    requires LowerWord(scheme) && !RequestScheme(scheme)
    ensures Exchange(action, scheme + ":" + rest, data, token, server).1 == []
    ensures Exchange(action, scheme + ":" + rest, data, token, server).0.Raised?
  {
    SchemeOfPrefix(scheme, rest);
  }

  /** A host holding none of ':', '@', '/', '?', '#'. */
  predicate PlainHost(host: string) {
    forall i :: 0 <= i < |host| ==> host[i] !in {':', '@', '/', '?', '#'}
  }

  /** Empty, or starting with '/', '?' or '#'. */
  predicate PathStart(path: string) {
    path == [] || path[0] in {'/', '?', '#'}
  }

  lemma NoPortText(host: string, path: string)
    requires PlainHost(host) && PathStart(path)
    ensures PortText(host + path) == None
  {
    FindFirstAppend(host, path, {'/', '?', '#'});
    assert (host + path)[..|host|] == host;
    AfterLastAppend([], host, {'@'});
    assert [] + host == host;
    AfterLastAppend([], host, {':'});
  }

  /** host:port with a plain host and a numeric port holds none of '@', '/', '?', '#'. */
  lemma PlainAuthority(host: string, digits: string)
    requires PlainHost(host) && AllDigits(digits)
    ensures forall i :: 0 <= i < |host + ":" + digits| ==> (host + ":" + digits)[i] !in {'@', '/', '?', '#'}
  {
    var a := host + ":" + digits;
    forall i | 0 <= i < |a| ensures a[i] !in {'@', '/', '?', '#'} {
      if i < |host| {
        assert a[i] == host[i];
      } else if i > |host| {
        assert a[i] == digits[i - |host| - 1];
        assert IsDigit(digits[i - |host| - 1]);
      }
    }
  }

  /** The authority of `host:digits` followed by a path is `host:digits`. */
  lemma AuthorityBeforePath(host: string, digits: string, path: string)
    requires PlainHost(host) && PathStart(path) && AllDigits(digits)
    ensures var rest := host + ":" + digits + path;
      rest[..FindFirst(rest, {'/', '?', '#'})] == host + ":" + digits
  {
    var authority := host + ":" + digits;
    PlainAuthority(host, digits);
    FindFirstAppend(authority, path, {'/', '?', '#'});
    assert FindFirst(path, {'/', '?', '#'}) == 0;
    assert (authority + path)[..|authority|] == authority;
  }

  /** `host:digits` carries no user part and its port is the digits after the colon. */
  lemma HostPortSplit(host: string, digits: string)
    requires PlainHost(host) && AllDigits(digits)
    ensures var authority := host + ":" + digits;
      && AfterLast(authority, {'@'}) == 0
      && AfterLast(authority, {':'}) == |host| + 1
      && authority[|host| + 1..] == digits
  {
    var authority := host + ":" + digits;
    PlainAuthority(host, digits);
    AfterLastAppend([], authority, {'@'});
    assert [] + authority == authority;
    assert AfterLast(host + ":", {':'}) == |host| + 1;
    AfterLastAppend(host + ":", digits, {':'});
  }

  lemma GivenPortText(host: string, digits: string, path: string)
    requires PlainHost(host) && PathStart(path) && AllDigits(digits)
    ensures PortText(host + ":" + digits + path) == Some(digits)
  {
    AuthorityBeforePath(host, digits, path);
    HostPortSplit(host, digits);
  }

  /** With a plain host and no port, the port is the scheme's default. */
  lemma DefaultPortWhenNoneGiven(scheme: string, host: string, path: string)
    requires LowerWord(scheme) && PlainHost(host) && PathStart(path)
    requires ParseUri(scheme + "://" + host + path).Some?
    ensures ParseUri(scheme + "://" + host + path).value == Uri(scheme, DefaultPort(scheme))
  {
    assert scheme + "://" + host + path == scheme + "://" + (host + path);
    ParseHierarchical(scheme, host + path);
    NoPortText(host, path);
  }

  lemma GivenPortAuthority(scheme: string, host: string, digits: string, path: string)
    requires PlainHost(host) && PathStart(path) && AllDigits(digits) && digits != []
    ensures AuthorityPort(scheme, host + ":" + digits + path) == Some(Some(ToI(digits)))
  {
    GivenPortText(host, digits, path);
  }

  lemma RegroupAfterScheme(scheme: string, host: string, digits: string, path: string)
    ensures scheme + "://" + host + ":" + digits + path == scheme + "://" + (host + ":" + digits + path)
  {
  }

  /** With a plain host and a numeric port n, the port is n. */
  lemma GivenPortIsUsed(scheme: string, host: string, n: nat, path: string)
    requires LowerWord(scheme) && PlainHost(host) && PathStart(path)
    requires ParseUri(scheme + "://" + host + ":" + IntToString(n) + path).Some?
    ensures ParseUri(scheme + "://" + host + ":" + IntToString(n) + path).value == Uri(scheme, Some(n))
  {
    var digits := NatToString(n);
    assert IntToString(n) == digits;
    var rest := host + ":" + digits + path;
    RegroupAfterScheme(scheme, host, digits, path);
    ParseHierarchical(scheme, rest);
    GivenPortAuthority(scheme, host, digits, path);
    ToINatToString(n);
  }

  lemma SchemeSeparators()
    ensures "http" + "://" == "http://" && "https" + "://" == "https://"
  {
  }

  /** Any parsable URL spelled with the https scheme goes over TLS. */
  lemma HttpsUsesSsl(rest: string)
    requires ParseUri("https://" + rest).Some?
    ensures UseSsl(ParseUri("https://" + rest).value)
  {
    HttpSchemesLower();
    SchemeSeparators();
    assert "https://" + rest == "https" + ":" + ("//" + rest);
    SchemeOfPrefix("https", "//" + rest);
  }

  /**
   * A plain http URL goes over TLS exactly when it names port 443, and
   * not at all when it names no port.
   */
  lemma HttpUsesSslOnlyOn443(host: string, n: nat, path: string)
    requires PlainHost(host) && PathStart(path)
    ensures ParseUri("http://" + host + path).Some? ==> !UseSsl(ParseUri("http://" + host + path).value)
    ensures ParseUri("http://" + host + ":" + IntToString(n) + path).Some? ==>
      (UseSsl(ParseUri("http://" + host + ":" + IntToString(n) + path).value) <==> n == 443)
  {
    HttpSchemesLower();
    SchemeSeparators();
    if ParseUri("http://" + host + path).Some? {
      DefaultPortWhenNoneGiven("http", host, path);
    }
    if ParseUri("http://" + host + ":" + IntToString(n) + path).Some? {
      GivenPortIsUsed("http", host, n, path);
    }
  }
}
