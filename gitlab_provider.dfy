/**
 * The `gitlab` provider of `git_integration`: where it sends requests
 * (gms_server and the URLs it builds), how it resolves the project id,
 * how it decides that an integration exists, the payload `create` sends,
 * and what `create` and `destroy` accept as success.
 *
 * Each flow is written twice: as a value-level reference (`ResolveProjectId`,
 * `ExistsFlow`, `CreateFlow`, `DestroyFlow`) about which the lemmas speak,
 * and as the method that performs it step by step through `ApiCall`. A flow
 * returns its outcome and the requests it sent, in order.
 */
module GitlabProvider {
  import opened Wrappers
  import opened RubyString
  import opened Json
  import opened Http
  import opened GitIntegrationType
  import Pattern

  /** Why a call raised. */
  datatype Failure =
    | Exception(message: string)   // raised by URI.parse or the transport
    | UnparsableBody               // JSON.parse raised
    | NotIndexable                 // `[]` on a parsed value without it (nil, true, a number, an array)
    | NotConvertible               // `.to_i` on a value without it (true, false, an array, a hash)
    | NoWebhook                    // `.strip` on an absent webhook
    | UnexpectedStatus(status: int)

  /** The error an operation raises. */
  datatype Error =
    | MissingProjectReference      // neither project_id nor project_name
    | LookupFailed(cause: Failure) // anything raised while looking the project up
    | ReadFailed(cause: Failure)   // exists? rescues nothing
    | WriteFailed(cause: Failure)  // create and destroy re-raise what they rescue

  // ---------------------------------------------------------------------
  // Server and URLs
  // ---------------------------------------------------------------------

  const DefaultServer: string := "https://gitlab.com"

  /** gms_server: server_url without surrounding whitespace, or GitLab's public instance. */
  function GmsServer(r: Resource): (s: string)
    ensures s == [] || (!IsStripped(s[0]) && !IsStripped(s[|s| - 1]))
    ensures r.serverUrl.Some? ==> |s| <= |r.serverUrl.value|
  {
    if r.serverUrl.Some? then Strip(r.serverUrl.value)
    else
      assert DefaultServer[0] == 'h' && DefaultServer[|DefaultServer| - 1] == 'm';
      DefaultServer
  }

  /** The prefix every URL of the provider shares. */
  function ProjectsRoot(r: Resource): string {
    GmsServer(r) + "/api/" + ApiVersionName(r.apiVersion) + "/projects/"
  }

  /** A project name as it goes into a URL: stripped, each '/' written `%2F`. */
  function EncodeProjectName(name: string): (e: string)
    ensures forall i :: 0 <= i < |e| ==> e[i] != '/'
  {
    EscapeSlashes(Strip(name))
  }

  function ProjectUrl(r: Resource, name: string): (u: string)
    ensures |ProjectsRoot(r)| <= |u| && u[..|ProjectsRoot(r)|] == ProjectsRoot(r)
    ensures forall i :: |ProjectsRoot(r)| <= i < |u| ==> u[i] != '/'
  {
    var e := EncodeProjectName(name);
    SegmentAfter(ProjectsRoot(r), e);
    ProjectsRoot(r) + e
  }

  /** Appending a string without '/' to a root adds no '/' after the root. */
  lemma SegmentAfter(root: string, e: string)
    requires forall i :: 0 <= i < |e| ==> e[i] != '/'
    ensures (root + e)[..|root|] == root
    ensures forall i :: |root| <= i < |root + e| ==> (root + e)[i] != '/'
  {
    forall i | |root| <= i < |root + e| ensures (root + e)[i] != '/' {
      assert (root + e)[i] == e[i - |root|];
    }
  }

  /** The one URL exists?, create and destroy use. */
  function IntegrationUrl(r: Resource, id: int): string {
    ProjectsRoot(r) + IntToString(id) + IntegrationPath(r)
  }

  function IntegrationPath(r: Resource): string {
    "/integrations/" + r.name
  }

  lemma DefaultServerIsHttpUrl()
    ensures Pattern.IsHttpUrl(DefaultServer)
    ensures DefaultServer == "https://" + "gitlab.com"
  {
    var s := DefaultServer;
    assert s[..8] == "https://";
    assert '\n' !in s;
    forall i | 0 <= i < |s| ensures s[i] != '\n' {
      assert s[i] in s;
    }
  }

  lemma SchemePrefixesKept()
    ensures "http://" != [] && !IsStripped("http://"[0]) && !IsStripped("http://"[6])
    ensures "https://" != [] && !IsStripped("https://"[0]) && !IsStripped("https://"[7])
  {
  }

  /** A leading `http://` or `https://` survives `strip`. */
  lemma StripKeepsScheme(s: string, scheme: string)
    requires scheme == "http://" || scheme == "https://"
    requires Pattern.StartsWith(s, scheme)
    ensures Pattern.StartsWith(Strip(s), scheme)
  {
    SchemePrefixesKept();
    StripKeepsPrefix(scheme, s);
  }

  /** Stripping an http(s) URL leaves an http(s) URL. */
  lemma StripKeepsHttpUrl(s: string)
    requires Pattern.IsHttpUrl(s)
    ensures Pattern.IsHttpUrl(Strip(s))
  {
    if Pattern.StartsWith(s, "https://") {
      StripKeepsScheme(s, "https://");
    } else {
      StripKeepsScheme(s, "http://");
    }
    StripAddsNothing(s, '\n');
  }

  /** The server the provider talks to is always an http(s) URL once server_url has passed its validator. */
  lemma GmsServerIsHttpUrl(r: Resource)
    requires r.serverUrl.Some? ==> ServerUrlValid(r.serverUrl.value)
    ensures Pattern.IsHttpUrl(GmsServer(r))
  {
    if r.serverUrl.Some? {
      StripKeepsHttpUrl(r.serverUrl.value);
    } else {
      DefaultServerIsHttpUrl();
    }
  }

  /** A prefix of a string is a prefix of every extension of it. */
  lemma StartsWithAppend(a: string, b: string, p: string)
    requires Pattern.StartsWith(a, p)
    ensures Pattern.StartsWith(a + b, p)
  {
    assert (a + b)[..|p|] == a[..|p|];
  }

  /** An integration URL starts with whatever the server URL starts with. */
  lemma IntegrationUrlStartsWith(r: Resource, id: int, p: string)
    requires Pattern.StartsWith(GmsServer(r), p)
    ensures Pattern.StartsWith(IntegrationUrl(r, id), p)
  {
    StartsWithAppend(GmsServer(r), "/api/", p);
    StartsWithAppend(GmsServer(r) + "/api/", ApiVersionName(r.apiVersion), p);
    StartsWithAppend(GmsServer(r) + "/api/" + ApiVersionName(r.apiVersion), "/projects/", p);
    StartsWithAppend(ProjectsRoot(r), IntToString(id), p);
    StartsWithAppend(ProjectsRoot(r) + IntToString(id), IntegrationPath(r), p);
  }

  /**
   * Once server_url has passed its validator, `request_uri` never fails on
   * an integration URL: the only error api_call can still raise for it is
   * the parse error.
   */
  lemma ValidServerHasRequestUri(r: Resource, id: int)
    requires r.serverUrl.Some? ==> ServerUrlValid(r.serverUrl.value)
    ensures HasRequestUri(IntegrationUrl(r, id))
    ensures ParseUri(IntegrationUrl(r, id)).Some? ==> Sendable(IntegrationUrl(r, id))
  {
    GmsServerIsHttpUrl(r);
    var u := IntegrationUrl(r, id);
    SchemeSeparators();
    if Pattern.StartsWith(GmsServer(r), "https://") {
      IntegrationUrlStartsWith(r, id, "https://");
      assert u == "https" + "://" + u[8..];
      HttpUrlHasRequestUri("https", u[8..]);
    } else {
      IntegrationUrlStartsWith(r, id, "http://");
      assert u == "http" + "://" + u[7..];
      HttpUrlHasRequestUri("http", u[7..]);
    }
  }

  /** When the server is an https URL, every request to an integration goes over TLS. */
  lemma HttpsServerUsesTls(r: Resource, id: int)
    requires Pattern.StartsWith(GmsServer(r), "https://")
    requires ParseUri(IntegrationUrl(r, id)).Some?
    ensures UseSsl(ParseUri(IntegrationUrl(r, id)).value)
  {
    var u := IntegrationUrl(r, id);
    IntegrationUrlStartsWith(r, id, "https://");
    var rest := u[8..];
    assert u == "https://" + rest;
    HttpsUsesSsl(rest);
  }

  /** Without server_url every request to an integration goes over TLS. */
  lemma DefaultServerUsesTls(r: Resource, id: int)
    requires r.serverUrl.None?
    requires ParseUri(IntegrationUrl(r, id)).Some?
    ensures UseSsl(ParseUri(IntegrationUrl(r, id)).value)
  {
    DefaultServerIsHttpUrl();
    assert Pattern.StartsWith(DefaultServer, "https://");
    HttpsServerUsesTls(r, id);
  }

  /** Different project ids give different integration URLs. */
  lemma IntegrationUrlInjective(r: Resource, a: int, b: int)
    requires IntegrationUrl(r, a) == IntegrationUrl(r, b)
    ensures a == b
  {
    MiddleDetermined(ProjectsRoot(r), IntToString(a), IntToString(b), IntegrationPath(r));
    IntToStringInjective(a, b);
  }

  /** Encoding loses nothing: for names without '%' it is undone by reading `%2F` back as '/'. */
  lemma EncodeProjectNameInvertible(name: string)
    requires forall i :: 0 <= i < |name| ==> name[i] != '%'
    ensures UnescapeSlashes(EncodeProjectName(name)) == Strip(name)
  {
    StripAddsNothing(name, '%');
    UnescapeEscapeSlashes(Strip(name));
  }

  lemma NoSlashIn(w: string)
    requires w == "group" || w == "project"
    ensures forall i :: 0 <= i < |w| ==> w[i] != '/'
  {
    assert '/' !in w;
    forall i | 0 <= i < |w| ensures w[i] != '/' {
      assert w[i] in w;
    }
  }

  lemma GroupProjectLiterals()
    ensures "group/project" == "group" + "/" + "project"
    ensures "group%2Fproject" == "group" + "%2F" + "project"
  {
  }

  lemma EscapeExample()
    ensures EscapeSlashes("group/project") == "group%2Fproject"
  {
    NoSlashIn("group");
    NoSlashIn("project");
    EscapeAroundSlash("group", "project");
    GroupProjectLiterals();
  }

  lemma PaddedLiteral()
    ensures " group/project\n" == " " + "group/project" + "\n"
    ensures "" + "group/project" + "" == "group/project"
    ensures AllStripped(" ") && AllStripped("\n") && AllStripped("")
  {
  }

  lemma EdgesKept()
    ensures !IsStripped("group/project"[0]) && !IsStripped("group/project"[12])
  {
  }

  lemma StripExample()
    ensures Strip("group/project") == "group/project"
    ensures Strip(" group/project\n") == "group/project"
  {
    EdgesKept();
    PaddedLiteral();
    StripExact(" ", "group/project", "\n");
    StripExact("", "group/project", "");
  }

  /** A namespaced project name, padded or not, is sent as one path segment. */
  lemma EncodeProjectNameExample()
    ensures EncodeProjectName("group/project") == "group%2Fproject"
    ensures EncodeProjectName(" group/project\n") == "group%2Fproject"
  {
    StripExample();
    EscapeExample();
  }

  // ---------------------------------------------------------------------
  // get_project_id
  // ---------------------------------------------------------------------

  /** What the project lookup yields for a reply: the body's `id` after `.to_i`; the status is not looked at. */
  function LookupOutcome(reply: Reply): (r: Result<int, Failure>)
    ensures r.Ok? ==> reply.Response? && reply.body.Parsed?
  {
    match reply
    case Raised(m) => Err(Exception(m))
    case Response(_, Malformed) => Err(UnparsableBody)
    case Response(_, Parsed(j)) =>
      match Index(j, "id")
      case None => Err(NotIndexable)
      case Some(v) =>
        match ToInteger(v)
        case None => Err(NotConvertible)
        case Some(n) => Ok(n)
  }

  /** The id is read from the object's `id` when it is a number, whatever the status. */
  lemma LookupReadsId(status: int, m: map<string, Json>, n: int)
    requires "id" in m && m["id"] == JInt(n)
    ensures LookupOutcome(Response(status, Parsed(JObject(m)))) == Ok(n)
  {
  }

  /** ... and when it is the number's decimal text. */
  lemma LookupReadsIdText(status: int, m: map<string, Json>, n: int)
    requires "id" in m && m["id"] == JStr(IntToString(n))
    ensures LookupOutcome(Response(status, Parsed(JObject(m)))) == Ok(n)
  {
    var text := IntToString(n);
    ToIIntToString(n);
    assert ToInteger(JStr(text)) == Some(n);
    assert Index(JObject(m), "id") == Some(JStr(text));
  }

  /**
   * For any object body holding `id`, whatever the status, the id is that
   * value after `.to_i`, and a value `.to_i` refuses is an error.
   */
  lemma LookupReadsIdValue(status: int, m: map<string, Json>)
    requires "id" in m
    ensures LookupOutcome(Response(status, Parsed(JObject(m))))
      == (if ToInteger(m["id"]).Some? then Ok(ToInteger(m["id"]).value) else Err(NotConvertible))
  {
  }

  /** `{"id": " 7"}` gives project 7: `to_i` skips the leading space. */
  lemma LookupLeadingSpaceId(status: int)
    ensures LookupOutcome(Response(status, Parsed(JObject(map["id" := JStr(" 7")])))) == Ok(7)
  {
    var m := map["id" := JStr(" 7")];
    ToILeadingSpace();
    assert ToInteger(m["id"]) == Some(7);
    LookupReadsIdValue(status, m);
  }

  /** `{"id": "42abc"}` gives project 42: `to_i` stops at the first non-digit. */
  lemma LookupTrailingTextId(status: int)
    ensures LookupOutcome(Response(status, Parsed(JObject(map["id" := JStr("42abc")])))) == Ok(42)
  {
    var m := map["id" := JStr("42abc")];
    ToITrailingText();
    assert ToInteger(m["id"]) == Some(42);
    LookupReadsIdValue(status, m);
  }

  /** `{"id": null}` gives project 0, as `nil.to_i` is 0. */
  lemma LookupNullId(status: int)
    ensures LookupOutcome(Response(status, Parsed(JObject(map["id" := JNull])))) == Ok(0)
  {
    LookupReadsIdValue(status, map["id" := JNull]);
  }

  /** `{"id": true}` raises: `true` has no `to_i`. */
  lemma LookupBooleanIdRaises(status: int, b: bool)
    ensures LookupOutcome(Response(status, Parsed(JObject(map["id" := JBool(b)])))) == Err(NotConvertible)
  {
    LookupReadsIdValue(status, map["id" := JBool(b)]);
  }

  /** An object without `id`, such as a 404 body, yields project 0 rather than an error. */
  lemma LookupMissingIdIsZero(status: int, m: map<string, Json>)
    requires "id" !in m
    ensures LookupOutcome(Response(status, Parsed(JObject(m)))) == Ok(0)
  {
  }

  function LiftLookup(r: Result<int, Failure>): Result<int, Error> {
    match r
    case Ok(n) => Ok(n)
    case Err(f) => Err(LookupFailed(f))
  }

  /** get_project_id as a value: the id, or the error, and the requests sent. */
  function ResolveProjectId(r: Resource, token: string, server: HttpRequest -> Reply)
    : (Result<int, Error>, seq<HttpRequest>)
  {
    if r.projectId.Some? then (Ok(r.projectId.value), [])
    else if r.projectName.None? then (Err(MissingProjectReference), [])
    else
      var x := Exchange("GET", ProjectUrl(r, r.projectName.value), None, token, server);
      (LiftLookup(LookupOutcome(x.0)), x.1)
  }

  /**
   * A given project_id is returned as is, with no request and whatever the
   * name; with neither id nor name the error comes before any request.
   */
  lemma ResolveWithoutLookup(r: Resource, token: string, server: HttpRequest -> Reply)
    ensures r.projectId.Some? ==> ResolveProjectId(r, token, server) == (Ok(r.projectId.value), [])
    ensures r.projectId.None? && r.projectName.None? ==>
      ResolveProjectId(r, token, server) == (Err(MissingProjectReference), [])
  {
  }

  /**
   * By name: at most one request, a GET of the project's URL, and every
   * failure of it, status aside, reported as a lookup failure.
   */
  lemma ResolveByName(r: Resource, token: string, server: HttpRequest -> Reply)
    requires r.projectId.None? && r.projectName.Some?
    ensures var (id, sent) := ResolveProjectId(r, token, server);
      && |sent| <= 1
      && (forall q :: q in sent ==> q.verb == Get && q.url == ProjectUrl(r, r.projectName.value) && q.body == None)
      && (id.Err? ==> id.error.LookupFailed?)
      && (|sent| == 1 ==> id == LiftLookup(LookupOutcome(server(sent[0]))))
  {
    SelectVerbOfName(Get);
    ExchangeSendsOne("GET", ProjectUrl(r, r.projectName.value), None, token, server);
  }

  method GetProjectId(r: Resource, token: string, server: HttpRequest -> Reply)
    returns (id: Result<int, Error>, sent: seq<HttpRequest>)
    ensures (id, sent) == ResolveProjectId(r, token, server)
  {
    if r.projectId.Some? {
      return Ok(r.projectId.value), [];
    }
    if r.projectName.None? {
      return Err(MissingProjectReference), [];
    }
    var projectName := EncodeProjectName(r.projectName.value);
    var url := ProjectsRoot(r) + projectName;
    var reply;
    reply, sent := ApiCall("GET", url, None, token, server);
    match LookupOutcome(reply)
    case Ok(n) => id := Ok(n);
    case Err(f) => id := Err(LookupFailed(f));
  }

  // ---------------------------------------------------------------------
  // exists?
  // ---------------------------------------------------------------------

  /** The exists? decision on the integration read: only a boolean `true` under `active` counts. */
  function Classify(reply: Reply): (r: Result<bool, Failure>)
    ensures r == Ok(true) <==>
      reply.Response? && reply.body.Parsed? && Index(reply.body.value, "active") == Some(JBool(true))
  {
    match reply
    case Raised(m) => Err(Exception(m))
    case Response(_, Malformed) => Err(UnparsableBody)
    case Response(_, Parsed(j)) =>
      match Index(j, "active")
      case None => Err(NotIndexable)
      case Some(v) => Ok(v == JBool(true))
  }

  /**
   * On an object body, whatever the status: present exactly when `active`
   * is the boolean true; `{}`, `active: false` and `active: "true"` are absent.
   */
  lemma ClassifyObject(status: int, m: map<string, Json>)
    ensures Classify(Response(status, Parsed(JObject(m)))) ==
      Ok("active" in m && m["active"] == JBool(true))
    ensures Classify(Response(status, Parsed(JObject(map[])))) == Ok(false)
    ensures Classify(Response(status, Parsed(JObject(map["active" := JBool(false)])))) == Ok(false)
    ensures Classify(Response(status, Parsed(JObject(map["active" := JStr("true")])))) == Ok(false)
  {
  }

  function LiftRead(r: Result<bool, Failure>): Result<bool, Error> {
    match r
    case Ok(b) => Ok(b)
    case Err(f) => Err(ReadFailed(f))
  }

  /** exists? as a value. */
  function ExistsFlow(r: Resource, token: string, server: HttpRequest -> Reply)
    : (Result<bool, Error>, seq<HttpRequest>)
  {
    var (pid, looked) := ResolveProjectId(r, token, server);
    if pid.Err? then (Err(pid.error), looked)
    else
      var x := Exchange("GET", IntegrationUrl(r, pid.value), None, token, server);
      (LiftRead(Classify(x.0)), looked + x.1)
  }

  method Exists(r: Resource, token: string, server: HttpRequest -> Reply)
    returns (present: Result<bool, Error>, sent: seq<HttpRequest>)
    ensures (present, sent) == ExistsFlow(r, token, server)
  {
    var projectId;
    projectId, sent := GetProjectId(r, token, server);
    if projectId.Err? {
      return Err(projectId.error), sent;
    }
    var url := ProjectsRoot(r) + IntToString(projectId.value) + "/integrations/" + r.name;
    assert url == IntegrationUrl(r, projectId.value);
    var reply, more := ApiCall("GET", url, None, token, server);
    sent := sent + more;
    match Classify(reply)
    case Ok(b) => present := Ok(b);
    case Err(f) => present := Err(ReadFailed(f));
  }

  // ---------------------------------------------------------------------
  // The create payload
  // ---------------------------------------------------------------------

  /** The event properties create forwards, in the order it tests them. */
  const EventFlags: seq<Flag> := [
    NotifyOnlyDefaultBranch, PushEvents, TagPushEvents, NoteEvents,
    MergeRequestsEvents, ConfidentialIssuesEvents
  ]

  /** `resource[:x]` for a boolean property: its value, or nil when it has none. */
  function FlagValue(r: Resource, f: Flag): Json {
    if f in r.flags then JBool(r.flags[f]) else JNull
  }

  /** `resource[:x] == true`. */
  predicate FlagIsTrue(r: Resource, f: Flag) {
    f in r.flags && r.flags[f]
  }

  /** Every property's field name is at least 11 characters long, and none is 23 long. */
  lemma FlagNameLength(f: Flag)
    ensures 11 <= |FlagName(f)| && |FlagName(f)| != 23
  {
  }

  /** No property's field is one of the two fixed fields. */
  lemma FlagNameNotFixed(f: Flag)
    ensures FlagName(f) != "webhook" && FlagName(f) != "enable_ssl_verification"
  {
    FlagNameLength(f);
  }

  /** Different properties have different field names. */
  lemma FlagNamesDiffer(f: Flag, g: Flag)
    requires f != g
    ensures FlagName(f) != FlagName(g)
  {
    ParseFlagNameOf(f);
    ParseFlagNameOf(g);
  }

  /**
   * `p` is the payload as far as the event properties `fl` go: the webhook,
   * the TLS field, and a field for each selected property of `fl`, nothing more.
   */
  predicate PayloadFor(p: Object, r: Resource, webhook: string, fl: seq<Flag>) {
    FixedFields(p, r, webhook) && EventFields(p, r, fl) && OnlyKnownFields(p, fl)
  }

  /** The webhook, stripped, and the TLS field exactly when disable_ssl_verify is selected. */
  predicate FixedFields(p: Object, r: Resource, webhook: string) {
    && "webhook" in p && p["webhook"] == JStr(Strip(webhook))
    && ("enable_ssl_verification" in p <==> DisableSslVerify in r.selected)
    && ("enable_ssl_verification" in p ==>
          p["enable_ssl_verification"] == JStr(if FlagIsTrue(r, DisableSslVerify) then "false" else "true"))
  }

  /** Each property of `fl` has its field exactly when selected, holding its value. */
  predicate EventFields(p: Object, r: Resource, fl: seq<Flag>) {
    && (forall f :: f in fl ==> (FlagName(f) in p <==> f in r.selected))
    && (forall f :: f in fl && FlagName(f) in p ==> p[FlagName(f)] == FlagValue(r, f))
  }

  /** Every field is a fixed one or that of a property of `fl`. */
  predicate OnlyKnownFields(p: Object, fl: seq<Flag>) {
    forall k :: k in p ==>
      k == "webhook" || k == "enable_ssl_verification" || exists f :: f in fl && FlagName(f) == k
  }

  /** The create payload, field by field. */
  predicate IsCreatePayload(p: Object, r: Resource, webhook: string) {
    PayloadFor(p, r, webhook, EventFlags)
  }

  /** The payload before any event property: the webhook, and the TLS field when selected. */
  function PayloadBase(r: Resource, webhook: string): Object {
    var base := map["webhook" := JStr(Strip(webhook))];
    if DisableSslVerify in r.selected then
      base["enable_ssl_verification" := JStr(if FlagIsTrue(r, DisableSslVerify) then "false" else "true")]
    else base
  }

  /** The payload after the conditional inserts for the properties `fl`, in order. */
  function PayloadThrough(r: Resource, webhook: string, fl: seq<Flag>): Object {
    if fl == [] then PayloadBase(r, webhook)
    else
      InsertFlag(PayloadThrough(r, webhook, fl[..|fl| - 1]), r, fl[|fl| - 1])
  }

  /** One of create's conditional inserts: the property's field and value, when it is selected. */
  function InsertFlag(p: Object, r: Resource, f: Flag): Object {
    if f in r.selected then p[FlagName(f) := FlagValue(r, f)] else p
  }

  /** The payload create sends: the base payload, then the six conditional inserts in create's order. */
  function CreatePayload(r: Resource, webhook: string): Object {
    PayloadThrough(r, webhook, EventFlags)
  }

  /**
   * What create sends: always the stripped webhook; the string "false" or
   * "true" for enable_ssl_verification, the opposite of disable_ssl_verify,
   * when that property is selected; and each of the six event properties
   * with its value exactly when selected. Nothing else.
   */
  lemma CreatePayloadMeetsDescription(r: Resource, webhook: string)
    ensures IsCreatePayload(CreatePayload(r, webhook), r, webhook)
  {
    EventFlagsDistinct();
    PayloadThroughFits(r, webhook, EventFlags);
  }

  /** No property is listed twice among the six. */
  predicate Distinct(fl: seq<Flag>) {
    forall i, j :: 0 <= i < j < |fl| ==> fl[i] != fl[j]
  }

  lemma EventFlagsDistinct()
    ensures Distinct(EventFlags)
  {
  }

  lemma {:induction false} PayloadThroughFits(r: Resource, webhook: string, fl: seq<Flag>)
    requires Distinct(fl)
    ensures PayloadFor(PayloadThrough(r, webhook, fl), r, webhook, fl)
    decreases |fl|
  {
    if fl == [] {
      PayloadBaseFits(r, webhook);
    } else {
      var init := fl[..|fl| - 1];
      var f := fl[|fl| - 1];
      LastNotInInit(fl);
      PayloadThroughFits(r, webhook, init);
      assert init + [f] == fl;
      AddEventField(PayloadThrough(r, webhook, init), r, webhook, init, f, PayloadThrough(r, webhook, fl), fl);
    }
  }

  lemma LastNotInInit(fl: seq<Flag>)
    requires Distinct(fl) && fl != []
    ensures fl[|fl| - 1] !in fl[..|fl| - 1]
    ensures Distinct(fl[..|fl| - 1])
  {
    var init := fl[..|fl| - 1];
    forall i | 0 <= i < |init| ensures init[i] != fl[|fl| - 1] {
      assert init[i] == fl[i];
    }
  }

  /** The base payload meets the description with no event property considered. */
  lemma PayloadBaseFits(r: Resource, webhook: string)
    ensures PayloadFor(PayloadBase(r, webhook), r, webhook, [])
  {
    PayloadStart(PayloadBase(r, webhook), r, webhook);
  }

  /** The characterisation fixes the payload: it describes exactly one map. */
  lemma CreatePayloadUnique(p: Object, q: Object, r: Resource, webhook: string)
    requires IsCreatePayload(p, r, webhook) && IsCreatePayload(q, r, webhook)
    ensures p == q
  {
    PayloadForUnique(p, q, r, webhook, EventFlags);
  }

  lemma PayloadForUnique(p: Object, q: Object, r: Resource, webhook: string, fl: seq<Flag>)
    requires PayloadFor(p, r, webhook, fl) && PayloadFor(q, r, webhook, fl)
    ensures p == q
  {
    forall k | k in p ensures k in q && p[k] == q[k] {
      FieldAgrees(p, q, r, webhook, fl, k);
    }
    forall k | k in q ensures k in p {
      FieldAgrees(q, p, r, webhook, fl, k);
    }
  }

  /** Two payloads meeting the same description agree on each field of either. */
  lemma FieldAgrees(p: Object, q: Object, r: Resource, webhook: string, fl: seq<Flag>, k: string)
    requires PayloadFor(p, r, webhook, fl) && PayloadFor(q, r, webhook, fl)
    requires k in p
    ensures k in q && p[k] == q[k]
  {
    if k != "webhook" && k != "enable_ssl_verification" {
      var f :| f in fl && FlagName(f) == k;
    }
  }

  /** A name that is neither a fixed field nor the field of a property of `fl` is not in the payload. */
  lemma NoFieldNamed(p: Object, fl: seq<Flag>, k: string)
    requires OnlyKnownFields(p, fl)
    requires k != "webhook" && k != "enable_ssl_verification"
    requires forall f :: f in fl ==> FlagName(f) != k
    ensures k !in p
  {
  }

  /** A property outside `fl` never has a field in the payload. */
  lemma NoFieldOutside(p: Object, fl: seq<Flag>, g: Flag)
    requires OnlyKnownFields(p, fl)
    requires g !in fl
    ensures FlagName(g) !in p
  {
    FlagNameNotFixed(g);
    forall f | f in fl ensures FlagName(f) != FlagName(g) {
      FlagNamesDiffer(f, g);
    }
    NoFieldNamed(p, fl, FlagName(g));
  }

  /** Three of the declared event properties are not among the six create sends. */
  lemma UnsentEvents()
    ensures IssuesEvents !in EventFlags && PipelineEvents !in EventFlags && WikiPageEvents !in EventFlags
  {
  }

  /**
   * issues_events, pipeline_events and wiki_page_events are never sent, and
   * neither is branches_to_be_notified, although the type declares all four.
   */
  lemma CreatePayloadOmits(p: Object, r: Resource, webhook: string)
    requires IsCreatePayload(p, r, webhook)
    ensures FlagName(IssuesEvents) !in p && FlagName(PipelineEvents) !in p && FlagName(WikiPageEvents) !in p
    ensures "branches_to_be_notified" !in p
  {
    assert OnlyKnownFields(p, EventFlags);
    UnsentEvents();
    NoFieldOutside(p, EventFlags, IssuesEvents);
    NoFieldOutside(p, EventFlags, PipelineEvents);
    NoFieldOutside(p, EventFlags, WikiPageEvents);
    BranchesIsNoEventField();
    NoFieldNamed(p, EventFlags, "branches_to_be_notified");
  }

  /** branches_to_be_notified is not the field name of any of the six. */
  lemma BranchesIsNoEventField()
    ensures forall f :: f in EventFlags ==> FlagName(f) != "branches_to_be_notified"
  {
    forall f | f in EventFlags ensures FlagName(f) != "branches_to_be_notified" {
      assert |FlagName(f)| != 23;
    }
  }

  /** The payload with no event property considered yet. */
  lemma PayloadStart(p: Object, r: Resource, webhook: string)
    requires "webhook" in p && p["webhook"] == JStr(Strip(webhook))
    requires "enable_ssl_verification" in p <==> DisableSslVerify in r.selected
    requires "enable_ssl_verification" in p ==>
      p["enable_ssl_verification"] == JStr(if FlagIsTrue(r, DisableSslVerify) then "false" else "true")
    requires forall k :: k in p ==> k == "webhook" || k == "enable_ssl_verification"
    ensures PayloadFor(p, r, webhook, [])
  {
  }

  /** One conditional insert extends the payload by one event property. */
  lemma AddEventField(p: Object, r: Resource, webhook: string, fl: seq<Flag>, f: Flag, q: Object, gl: seq<Flag>)
    requires PayloadFor(p, r, webhook, fl)
    requires f !in fl
    requires q == InsertFlag(p, r, f) && gl == fl + [f]
    ensures PayloadFor(q, r, webhook, gl)
  {
    FlagNameNotFixed(f);
    forall g | g in fl ensures FlagName(g) != FlagName(f) {
      FlagNamesDiffer(g, f);
    }
    assert FlagName(f) !in p;
    InsertKeepsFixedFields(p, r, webhook, f);
    InsertExtendsEventFields(p, r, fl, f, gl);
    InsertKeepsKnownFields(p, r, fl, f, gl);
  }

  lemma InsertKeepsFixedFields(p: Object, r: Resource, webhook: string, f: Flag)
    requires FixedFields(p, r, webhook)
    requires FlagName(f) != "webhook" && FlagName(f) != "enable_ssl_verification"
    ensures FixedFields(InsertFlag(p, r, f), r, webhook)
  {
  }

  lemma InsertExtendsEventFields(p: Object, r: Resource, fl: seq<Flag>, f: Flag, gl: seq<Flag>)
    requires EventFields(p, r, fl)
    requires FlagName(f) !in p
    requires forall g :: g in fl ==> FlagName(g) != FlagName(f)
    requires gl == fl + [f]
    ensures EventFields(InsertFlag(p, r, f), r, gl)
  {
    InsertSelectsFields(p, r, fl, f, gl);
    InsertFieldValues(p, r, fl, f, gl);
  }

  lemma InsertSelectsFields(p: Object, r: Resource, fl: seq<Flag>, f: Flag, gl: seq<Flag>)
    requires forall g :: g in fl ==> (FlagName(g) in p <==> g in r.selected)
    requires FlagName(f) !in p
    requires forall g :: g in fl ==> FlagName(g) != FlagName(f)
    requires gl == fl + [f]
    ensures forall g :: g in gl ==> (FlagName(g) in InsertFlag(p, r, f) <==> g in r.selected)
  {
    forall g | g in gl ensures FlagName(g) in InsertFlag(p, r, f) <==> g in r.selected {
      if g != f {
        assert g in fl;
      }
    }
  }

  lemma InsertFieldValues(p: Object, r: Resource, fl: seq<Flag>, f: Flag, gl: seq<Flag>)
    requires forall g :: g in fl && FlagName(g) in p ==> p[FlagName(g)] == FlagValue(r, g)
    requires FlagName(f) !in p
    requires forall g :: g in fl ==> FlagName(g) != FlagName(f)
    requires gl == fl + [f]
    ensures forall g :: g in gl && FlagName(g) in InsertFlag(p, r, f) ==> InsertFlag(p, r, f)[FlagName(g)] == FlagValue(r, g)
  {
    var q := InsertFlag(p, r, f);
    forall g | g in gl && FlagName(g) in q ensures q[FlagName(g)] == FlagValue(r, g) {
      if g != f {
        assert g in fl;
      }
    }
  }

  lemma InsertKeepsKnownFields(p: Object, r: Resource, fl: seq<Flag>, f: Flag, gl: seq<Flag>)
    requires OnlyKnownFields(p, fl)
    requires gl == fl + [f]
    ensures OnlyKnownFields(InsertFlag(p, r, f), gl)
  {
    var q := InsertFlag(p, r, f);
    forall k | k in q ensures k == "webhook" || k == "enable_ssl_verification" || exists g :: g in gl && FlagName(g) == k {
      if k != "webhook" && k != "enable_ssl_verification" {
        if k == FlagName(f) {
          assert f in gl;
        } else {
          var g :| g in fl && FlagName(g) == k;
          assert g in gl;
        }
      }
    }
  }

  /** The inserts for the first `n + 1` of the six are those for the first `n`, then one more. */
  lemma PayloadThroughStep(r: Resource, webhook: string, n: nat)
    requires n < |EventFlags|
    ensures PayloadThrough(r, webhook, EventFlags[..n + 1])
         == InsertFlag(PayloadThrough(r, webhook, EventFlags[..n]), r, EventFlags[n])
  {
    assert EventFlags[..n + 1][..n] == EventFlags[..n];
  }

  /** The six inserts in create's order, one after the other, give `CreatePayload`. */
  lemma SixInsertsBuildPayload(r: Resource, webhook: string,
                               o0: Object, o1: Object, o2: Object, o3: Object, o4: Object, o5: Object, o6: Object)
    requires o0 == PayloadBase(r, webhook)
    requires o1 == InsertFlag(o0, r, NotifyOnlyDefaultBranch)
    requires o2 == InsertFlag(o1, r, PushEvents)
    requires o3 == InsertFlag(o2, r, TagPushEvents)
    requires o4 == InsertFlag(o3, r, NoteEvents)
    requires o5 == InsertFlag(o4, r, MergeRequestsEvents)
    requires o6 == InsertFlag(o5, r, ConfidentialIssuesEvents)
    ensures o6 == CreatePayload(r, webhook)
  {
    assert EventFlags[..0] == [];
    PayloadThroughStep(r, webhook, 0);
    PayloadThroughStep(r, webhook, 1);
    PayloadThroughStep(r, webhook, 2);
    PayloadThroughStep(r, webhook, 3);
    PayloadThroughStep(r, webhook, 4);
    PayloadThroughStep(r, webhook, 5);
    assert EventFlags[..6] == EventFlags;
  }

  /** One of create's conditional inserts: the property's field gets its value when it is selected. */
  method SetIfSelected(opts: Object, r: Resource, f: Flag) returns (o: Object)
    ensures o == InsertFlag(opts, r, f)
  {
    o := opts;
    if f in r.selected {
      o := o[FlagName(f) := FlagValue(r, f)];
    }
  }

  /**
   * The start of create's payload: the stripped webhook, and the TLS field
   * as the string opposite to disable_ssl_verify when that property is selected.
   */
  method BaseOptions(r: Resource, webhook: string) returns (opts: Object)
    ensures opts == PayloadBase(r, webhook)
  {
    opts := map["webhook" := JStr(Strip(webhook))];
    if DisableSslVerify in r.selected {
      if FlagIsTrue(r, DisableSslVerify) {
        opts := opts["enable_ssl_verification" := JStr("false")];
      } else {
        opts := opts["enable_ssl_verification" := JStr("true")];
      }
    }
  }

  /** create's successive conditional inserts build exactly `CreatePayload`. */
  method BuildPayload(r: Resource, webhook: string) returns (opts: Object)
    ensures opts == CreatePayload(r, webhook)
  {
    opts := BaseOptions(r, webhook);
    ghost var o0 := opts;
    opts := SetIfSelected(opts, r, NotifyOnlyDefaultBranch);
    ghost var o1 := opts;
    opts := SetIfSelected(opts, r, PushEvents);
    ghost var o2 := opts;
    opts := SetIfSelected(opts, r, TagPushEvents);
    ghost var o3 := opts;
    opts := SetIfSelected(opts, r, NoteEvents);
    ghost var o4 := opts;
    opts := SetIfSelected(opts, r, MergeRequestsEvents);
    ghost var o5 := opts;
    opts := SetIfSelected(opts, r, ConfidentialIssuesEvents);
    SixInsertsBuildPayload(r, webhook, o0, o1, o2, o3, o4, o5, opts);
  }

  // ---------------------------------------------------------------------
  // create and destroy
  // ---------------------------------------------------------------------

  /** create succeeds on exactly 200 (Net::HTTPOK); the body is not read. */
  function CreateOutcome(reply: Reply): (r: Result<(), Failure>)
    ensures r.Ok? <==> reply.Response? && reply.status == 200
  {
    match reply
    case Raised(m) => Err(Exception(m))
    case Response(status, _) => if status == 200 then Ok(()) else Err(UnexpectedStatus(status))
  }

  /** destroy succeeds on exactly 204 (Net::HTTPNoContent); the body is not read. */
  function DestroyOutcome(reply: Reply): (r: Result<(), Failure>)
    ensures r.Ok? <==> reply.Response? && reply.status == 204
  {
    match reply
    case Raised(m) => Err(Exception(m))
    case Response(status, _) => if status == 204 then Ok(()) else Err(UnexpectedStatus(status))
  }

  function LiftWrite(r: Result<(), Failure>): Result<(), Error> {
    match r
    case Ok(u) => Ok(u)
    case Err(f) => Err(WriteFailed(f))
  }

  /** create as a value. */
  function CreateFlow(r: Resource, token: string, server: HttpRequest -> Reply)
    : (Result<(), Error>, seq<HttpRequest>)
  {
    var (pid, looked) := ResolveProjectId(r, token, server);
    if pid.Err? then (Err(pid.error), looked)
    else if r.webhook.None? then (Err(WriteFailed(NoWebhook)), looked)
    else
      var x := Exchange("PUT", IntegrationUrl(r, pid.value), Some(CreatePayload(r, r.webhook.value)), token, server);
      (LiftWrite(CreateOutcome(x.0)), looked + x.1)
  }

  method Create(r: Resource, token: string, server: HttpRequest -> Reply)
    returns (outcome: Result<(), Error>, sent: seq<HttpRequest>)
    ensures (outcome, sent) == CreateFlow(r, token, server)
  {
    var projectId;
    projectId, sent := GetProjectId(r, token, server);
    if projectId.Err? {
      return Err(projectId.error), sent;
    }
    var url := ProjectsRoot(r) + IntToString(projectId.value) + "/integrations/" + r.name;
    assert url == IntegrationUrl(r, projectId.value);
    if r.webhook.None? {
      return Err(WriteFailed(NoWebhook)), sent;
    }
    var opts := BuildPayload(r, r.webhook.value);
    var reply, more := ApiCall("PUT", url, Some(opts), token, server);
    sent := sent + more;
    match CreateOutcome(reply)
    case Ok(u) => outcome := Ok(u);
    case Err(f) => outcome := Err(WriteFailed(f));
  }

  /** destroy as a value. */
  function DestroyFlow(r: Resource, token: string, server: HttpRequest -> Reply)
    : (Result<(), Error>, seq<HttpRequest>)
  {
    var (pid, looked) := ResolveProjectId(r, token, server);
    if pid.Err? then (Err(pid.error), looked)
    else
      var x := Exchange("DELETE", IntegrationUrl(r, pid.value), None, token, server);
      (LiftWrite(DestroyOutcome(x.0)), looked + x.1)
  }

  method Destroy(r: Resource, token: string, server: HttpRequest -> Reply)
    returns (outcome: Result<(), Error>, sent: seq<HttpRequest>)
    ensures (outcome, sent) == DestroyFlow(r, token, server)
  {
    var projectId;
    projectId, sent := GetProjectId(r, token, server);
    if projectId.Err? {
      return Err(projectId.error), sent;
    }
    var url := ProjectsRoot(r) + IntToString(projectId.value) + "/integrations/" + r.name;
    assert url == IntegrationUrl(r, projectId.value);
    var reply, more := ApiCall("DELETE", url, None, token, server);
    sent := sent + more;
    match DestroyOutcome(reply)
    case Ok(u) => outcome := Ok(u);
    case Err(f) => outcome := Err(WriteFailed(f));
  }

  // ---------------------------------------------------------------------
  // Properties of the flows
  // ---------------------------------------------------------------------

  /**
   * Once the project id is known, exists?, create and destroy each send one
   * more request, all to the same integration URL: a GET without body, a
   * PUT with the create payload, a DELETE without body.
   */
  lemma FlowsShareTheIntegrationUrl(r: Resource, token: string, server: HttpRequest -> Reply, id: int)
    requires ResolveProjectId(r, token, server).0 == Ok(id)
    requires Sendable(IntegrationUrl(r, id))
    requires r.webhook.Some?
    ensures var looked := ResolveProjectId(r, token, server).1;
      var e := ExistsFlow(r, token, server).1;
      var c := CreateFlow(r, token, server).1;
      var d := DestroyFlow(r, token, server).1;
      && |e| == |c| == |d| == |looked| + 1
      && e[..|looked|] == c[..|looked|] == d[..|looked|] == looked
      && e[|looked|].url == c[|looked|].url == d[|looked|].url == IntegrationUrl(r, id)
      && e[|looked|].verb == Get && e[|looked|].body == None
      && c[|looked|].verb == Put && c[|looked|].body == Some(CreatePayload(r, r.webhook.value))
      && d[|looked|].verb == Delete && d[|looked|].body == None
  {
    SelectVerbOfName(Get);
    SelectVerbOfName(Put);
    SelectVerbOfName(Delete);
    var u := IntegrationUrl(r, id);
    ExchangeSendable("GET", u, None, token, server);
    ExchangeSendable("PUT", u, Some(CreatePayload(r, r.webhook.value)), token, server);
    ExchangeSendable("DELETE", u, None, token, server);
  }

  /**
   * destroy never reads the integration: apart from the project lookup it
   * sends only its DELETE, and it succeeds only on 204, so a 404 raises.
   */
  lemma DestroyOnlyDeletes(r: Resource, token: string, server: HttpRequest -> Reply)
    ensures var (outcome, sent) := DestroyFlow(r, token, server);
      var looked := ResolveProjectId(r, token, server).1;
      && sent[..|looked|] == looked
      && (forall q :: q in sent[|looked|..] ==> q.verb == Delete)
      && (outcome.Ok? <==> |sent| == |looked| + 1 && server(sent[|looked|]) .Response?
                           && server(sent[|looked|]).status == 204)
      && (|sent| == |looked| + 1 && server(sent[|looked|]) == Response(404, Malformed) ==>
            outcome == Err(WriteFailed(UnexpectedStatus(404))))
  {
    SelectVerbOfName(Delete);
    var (pid, looked) := ResolveProjectId(r, token, server);
    if pid.Ok? {
      ExchangeSendsOne("DELETE", IntegrationUrl(r, pid.value), None, token, server);
    }
  }

  /**
   * create sends at most one PUT after the lookup, none when the webhook is
   * missing, and succeeds only when that PUT is answered with 200.
   */
  lemma CreateOnlyPuts(r: Resource, token: string, server: HttpRequest -> Reply)
    ensures var (outcome, sent) := CreateFlow(r, token, server);
      var looked := ResolveProjectId(r, token, server).1;
      && sent[..|looked|] == looked
      && |sent| <= |looked| + 1
      && (forall q :: q in sent[|looked|..] ==> q.verb == Put && q.body.Some?)
      && (r.webhook.None? ==> sent == looked && outcome.Err?)
      && (outcome.Ok? <==> |sent| == |looked| + 1 && server(sent[|looked|]).Response?
                           && server(sent[|looked|]).status == 200)
  {
    SelectVerbOfName(Put);
    var (pid, looked) := ResolveProjectId(r, token, server);
    if pid.Ok? && r.webhook.Some? {
      ExchangeSendsOne("PUT", IntegrationUrl(r, pid.value), Some(CreatePayload(r, r.webhook.value)), token, server);
    }
  }

  /** exists? is true exactly when the integration read answers with `active: true`. */
  lemma ExistsOnlyOnActive(r: Resource, token: string, server: HttpRequest -> Reply)
    ensures var (present, sent) := ExistsFlow(r, token, server);
      var looked := ResolveProjectId(r, token, server).1;
      && sent[..|looked|] == looked
      && |sent| <= |looked| + 1
      && (forall q :: q in sent[|looked|..] ==> q.verb == Get && q.body == None)
      && (present == Ok(true) <==>
            |sent| == |looked| + 1 && server(sent[|looked|]).Response?
            && server(sent[|looked|]).body.Parsed?
            && Index(server(sent[|looked|]).body.value, "active") == Some(JBool(true)))
  {
    SelectVerbOfName(Get);
    var (pid, looked) := ResolveProjectId(r, token, server);
    if pid.Ok? {
      ExchangeSendsOne("GET", IntegrationUrl(r, pid.value), None, token, server);
    }
  }
}
