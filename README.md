# git_integration: a Dafny model of the GitLab integration resource

The Puppet resource type `git_integration` describes a project-level
integration on a GitLab server. Examples of integrations are a Slack or
Hangouts Chat hook, or a Jenkins trigger. The `gitlab` provider brings such
an integration into existence, or removes it, through GitLab's REST API.

This project models two things:

- **The type.** It covers:
  - the forty accepted integration names;
  - the `branches_to_be_notified` and `gitlab_api_version` enumerations and their defaults;
  - the twelve boolean properties, which default to false;
  - the `webhook` and `server_url` validators;
  - the `project_id` and `project_name` munges.

  `Instantiate` turns a declaration into the resource the provider works on, or rejects it.
- **The provider.** It covers:
  - `gms_server`;
  - the URLs the provider builds;
  - the verb and TLS choice of `api_call`;
  - the project-id lookup;
  - the `exists?` decision;
  - the payload `create` sends;
  - the status codes `create` and `destroy` accept.

The GitLab server is a parameter `server: HttpRequest -> Reply`. It is a
function from the request that reaches it to the reply it gives, or to the
exception the transport raises. Each provider operation is written twice:

- as a value-level flow (`ResolveProjectId`, `ExistsFlow`, `CreateFlow`,
  `DestroyFlow`), which returns the outcome and the requests sent, in order;
- as a method that performs it step by step through `Http.ApiCall`.

`Http.ApiCall` fills in a `Request` object field by field. Each method's
contract ties it to its flow, and the lemmas speak about the flows.

Modules, one per file:

- `Wrappers`: `Option` and `Result`.
- `RubyString`: the Ruby string and integer operations the code relies on:
  - `strip`;
  - ASCII `downcase`;
  - `include?`;
  - `gsub('/', '%2F')`;
  - `Integer#to_s`, `String#to_i`;
  - decimal `Integer()`.
- `Pattern`: a small regular-expression language with full-string
  matching, and the two validator patterns.
- `Json`: parsed JSON values, `parsed[key]`, `.to_i`, and the abstract HTTP reply.
- `GitIntegrationType`: the resource type.
- `Http`: verb selection, URI parsing as far as the transport needs it, the
  TLS rule, the `Request` class and `ApiCall`.
- `GitlabProvider`: the provider.

The model follows the code on these points:

- No attributes are compared or diffed. `exists?` looks only at `active`.
- `create` sends the whole payload every time.
- Neither the project lookup nor the integration read checks the HTTP
  status. A 404 body such as `{"message": "404 Not Found"}` still parses.
  The lookup then yields project id 0, because a missing `id` is nil and
  `nil.to_i` is 0.
- `enable_ssl_verification` is sent as the string `"true"` or `"false"`,
  not as a JSON boolean. Every other property is sent as its own value.

## Model

| member | source | states |
|---|---|---|
| RubyString.Strip | lib/puppet/provider/git_integration/gitlab.rb:98 | the result is the piece of the input that starts at `StripOffset`; every character before or after that piece is whitespace or NUL; neither end of the result is whitespace or NUL |
| RubyString.StripExact | lib/puppet/provider/git_integration/gitlab.rb:139 | a string padded with whitespace on both sides strips back to exactly itself |
| RubyString.StripAddsNothing | lib/puppet/provider/git_integration/gitlab.rb:98 | a character absent from the input is absent from the stripped result |
| RubyString.StripKeepsPrefix | lib/puppet/provider/git_integration/gitlab.rb:12 | a prefix that starts and ends with non-space characters survives `strip`, and the result is a prefix of the input |
| RubyString.Downcase | lib/puppet/provider/git_integration/gitlab.rb:45 | the same length as the input, each character lower-cased (ASCII) |
| RubyString.Includes | lib/puppet/provider/git_integration/gitlab.rb:45 | true exactly when the pattern occurs somewhere as a contiguous substring |
| RubyString.EscapeSlashes | lib/puppet/provider/git_integration/gitlab.rb:98 | the result holds no `/` and is never shorter than the input |
| RubyString.UnescapeEscapeSlashes | lib/puppet/provider/git_integration/gitlab.rb:98 | for a string without `%`, reading each `%2F` back as `/` recovers the original, so nothing else was changed |
| RubyString.ToIIntToString | lib/puppet/provider/git_integration/gitlab.rb:104 | `String#to_i` reads the decimal text of any integer back as that integer |
| RubyString.IntToStringInjective | lib/puppet/provider/git_integration/gitlab.rb:76 | different integers have different decimal texts |
| RubyString.IntToString | lib/puppet/provider/git_integration/gitlab.rb:76 | the text of an integer starts with a digit exactly when it is non-negative, and with `-` exactly when it is negative |
| RubyString.ToI | lib/puppet/provider/git_integration/gitlab.rb:104 | `String#to_i` reads a string without any digit as 0 |
| RubyString.ToIReadsLeadingInteger | lib/puppet/provider/git_integration/gitlab.rb:104 | for every input made of whitespace, an optional sign, a run of digits with single underscores (leading zeros allowed) and any text that does not continue the run, `String#to_i` is the run's signed decimal value; the one form excluded is a run `0` followed by `d` or `D` and a digit, which is the base-10 prefix |
| RubyString.ToIReadsPrefixedInteger | lib/puppet/provider/git_integration/gitlab.rb:104 | for every input made of whitespace, an optional sign, `0d` or `0D`, a run of digits and any text that does not continue the run, `String#to_i` skips the prefix and is the run's signed decimal value |
| RubyString.ToIDecimalPrefix | lib/puppet/provider/git_integration/gitlab.rb:104 | `"0d10".to_i` is 10 |
| RubyString.ToINegativeDecimalPrefix | lib/puppet/provider/git_integration/gitlab.rb:104 | `" -0D7".to_i` is -7 |
| RubyString.ToINoLeadingDigit | lib/puppet/provider/git_integration/gitlab.rb:104 | for every input whose text after the leading whitespace and optional sign does not start with a digit, `String#to_i` is 0 |
| RubyString.ToITrailingText | lib/puppet/provider/git_integration/gitlab.rb:104 | `"42abc".to_i` is 42: text after the digits is ignored |
| RubyString.ToILeadingSpace | lib/puppet/provider/git_integration/gitlab.rb:104 | `" 7".to_i` is 7: leading whitespace is skipped |
| RubyString.ToIPlusSign | lib/puppet/provider/git_integration/gitlab.rb:104 | `"+5".to_i` is 5 |
| RubyString.ToILetters | lib/puppet/provider/git_integration/gitlab.rb:104 | `"abc".to_i` is 0 |
| RubyString.ToIUnderscore | lib/puppet/provider/git_integration/gitlab.rb:104 | `"1_0".to_i` is 10: a single underscore between digits is skipped |
| RubyString.ToILeadingZeros | lib/puppet/provider/git_integration/gitlab.rb:104 | `"007".to_i` is 7: leading zeros are read as decimal, not octal |
| RubyString.ParseIntegerIntToString | lib/puppet/type/git_integration.rb:37 | the decimal-only `Integer()` accepts the decimal text of any integer and returns that integer |
| RubyString.ParseInteger | lib/puppet/type/git_integration.rb:37 | the decimal-only `Integer()` of a string succeeds only when the string holds a digit |
| RubyString.ParseIntegerGrammar | lib/puppet/type/git_integration.rb:37 | the decimal-only `Integer()` of a string gives `n` exactly when the string is whitespace, an optional `+` or `-`, a decimal numeral spelling `n` (digits, single underscores between digits, no leading zero unless it is `0`), then whitespace |
| RubyString.ParseIntegerAccepts | lib/puppet/type/git_integration.rb:37 | every string of that grammar is accepted, with the signed value of its digits |
| RubyString.ParseIntegerSpells | lib/puppet/type/git_integration.rb:37 | every string the decimal-only reader accepts is a string of that grammar spelling the result |
| RubyString.LeadingZeroRefused | lib/puppet/type/git_integration.rb:37 | `"012"`, which Ruby reads as octal, is refused by the decimal-only reader |
| RubyString.LeadingZeroNineRefused | lib/puppet/type/git_integration.rb:37 | `"09"`, which Ruby refuses, is refused |
| RubyString.UnderscoreAndSpaceAccepted | lib/puppet/type/git_integration.rb:37 | `" -1_0 "` is read as -10 |
| Pattern.WebhookPatternIsNoSpace | lib/puppet/type/git_integration.rb:23 | the webhook pattern matches a string exactly when the string holds no whitespace character |
| Pattern.ServerUrlPatternIsHttpUrl | lib/puppet/type/git_integration.rb:118 | the server_url pattern matches a single-line string exactly when it starts with `http://` or `https://` |
| Json.Index | lib/puppet/provider/git_integration/gitlab.rb:82 | `parsed[key]` raises unless the value is a Hash or a String; a Hash gives the key's value, or nil without the key; a String gives the key itself exactly when it contains it, else nil |
| Json.ToInteger | lib/puppet/provider/git_integration/gitlab.rb:104 | `.to_i` raises exactly on booleans, arrays and hashes; nil gives 0, an Integer gives itself and a String gives `String#to_i` of its text |
| GitIntegrationType.IntegrationNamesFacts | lib/puppet/type/git_integration.rb:17 | the name list has forty entries, among them `slack`, `hangouts-chat` and `jenkins-deprecated` |
| GitIntegrationType.ParseBranchesName | lib/puppet/type/git_integration.rb:58-62 | each of `all`, `default`, `protected`, `default_and_protected` is accepted as the value of that name |
| GitIntegrationType.ParseBranches | lib/puppet/type/git_integration.rb:60 | a string is accepted only as the value whose name it is |
| GitIntegrationType.ParseApiVersionName | lib/puppet/type/git_integration.rb:124-128 | `v3` and `v4` are accepted as themselves |
| GitIntegrationType.ParseFlagNameOf | lib/puppet/type/git_integration.rb:48-112 | each boolean property is found again under its own name, so no two properties share a name |
| GitIntegrationType.AllFlagsComplete | lib/puppet/type/git_integration.rb:48-112 | the twelve declared boolean properties are all there are |
| GitIntegrationType.ValidatorsMatchPatterns | lib/puppet/type/git_integration.rb:22-26 | both validator predicates accept exactly what their regular expressions match: the webhook when it has no whitespace, the server_url (lines 116-121) when it is an http(s) URL |
| GitIntegrationType.MungeProjectId | lib/puppet/type/git_integration.rb:34-39 | an integer is kept as it is; a string is accepted exactly when it spells a decimal integer (whitespace, an optional sign, a numeral without leading zero, whitespace), and then gives that integer |
| GitIntegrationType.MungeProjectName | lib/puppet/type/git_integration.rb:41-46 | a string is kept as it is |
| GitIntegrationType.MungeProjectIdName | lib/puppet/type/git_integration.rb:34-46 | a numeric project_name munges to text that the project_id munge reads back as the same number |
| GitIntegrationType.FirstRejection | lib/puppet/type/git_integration.rb:10-128 | no rejection exactly when every declared value passes its validator; checks run in the order Puppet sets attributes, so a bad `name` is reported first and a bad `branches_to_be_notified` (a property) before any bad parameter |
| GitIntegrationType.BranchesRejectedBeforeWebhook | lib/puppet/type/git_integration.rb:58-62 | with a bad webhook `"a b"` and a bad branches value `"none"`, the branches value is the one reported |
| GitIntegrationType.Instantiate | lib/puppet/type/git_integration.rb:10-128 | accepted exactly when every given value passes its validator, otherwise rejected by the first failing validator in Puppet's order (namevar, then properties, then parameters in declaration order); given values are kept; the defaults are filled in: ensure present, every boolean false, branches `default`, api version `v4` |
| Http.SelectVerb | lib/puppet/provider/git_integration/gitlab.rb:45-53 | POST when `post` occurs in the action ignoring case; else PUT when `put` occurs; else DELETE when `delete` occurs; else GET |
| Http.SelectVerbOfName | lib/puppet/provider/git_integration/gitlab.rb:78 | the action names `GET`, `PUT`, `DELETE` and `POST` select their own verbs |
| Http.ParseUri | lib/puppet/provider/git_integration/gitlab.rb:30 | a URL that parses holds only URI characters, and its scheme is the lower-cased text before the first `:` |
| Http.DefaultPortWhenNoneGiven | lib/puppet/provider/git_integration/gitlab.rb:30-32 | a URL with a plain host and no port gets its scheme's default port |
| Http.GivenPortIsUsed | lib/puppet/provider/git_integration/gitlab.rb:30-32 | a URL with a plain host and a numeric port gets that port |
| Http.HttpsUsesSsl | lib/puppet/provider/git_integration/gitlab.rb:34-35 | every parsable `https://` URL is sent over TLS |
| Http.HttpUsesSslOnlyOn443 | lib/puppet/provider/git_integration/gitlab.rb:34-39 | an `http://` URL goes over TLS exactly when it names port 443, and never when it names no port |
| Http.Request.constructor | lib/puppet/provider/git_integration/gitlab.rb:45-53 | a new request has the chosen verb and the URL, no headers and no body |
| Http.Request.SetContentType | lib/puppet/provider/git_integration/gitlab.rb:55 | sets the `content-type` header and changes nothing else |
| Http.Request.AddField | lib/puppet/provider/git_integration/gitlab.rb:56 | stores the header under its lower-cased name and changes nothing else |
| Http.Request.SetBody | lib/puppet/provider/git_integration/gitlab.rb:58-60 | sets the body and leaves the headers alone |
| Http.UseSsl | lib/puppet/provider/git_integration/gitlab.rb:34-39 | TLS exactly when the port is 443 or the scheme is `https` |
| Http.HasRequestUri | lib/puppet/provider/git_integration/gitlab.rb:45-53 | `request_uri` gives a path only for the http, https, ws and wss schemes and a URL that is not opaque |
| Http.Exchange | lib/puppet/provider/git_integration/gitlab.rb:29-70 | one api_call as a value: the reply and the requests sent; its contract is `ExchangeSendsOne` |
| Http.ExchangeSendsOne | lib/puppet/provider/git_integration/gitlab.rb:29-70 | an unparsable URL raises before anything is sent, and so does a URL without a request path (`request_uri` fails); otherwise exactly one request is sent. That request carries the selected verb, the URL, the TLS decision, the JSON content type, the token, and a body exactly when data is given. The reply is the server's answer to it |
| Http.ExchangeSendable | lib/puppet/provider/git_integration/gitlab.rb:29-70 | to a sendable URL the exchange sends exactly the outgoing request and returns the server's reply |
| Http.OtherSchemesSendNothing | lib/puppet/provider/git_integration/gitlab.rb:45-53 | a URL whose scheme has no `request_uri`, such as `ftp:`, raises and sends nothing |
| Http.HttpUrlHasRequestUri | lib/puppet/provider/git_integration/gitlab.rb:45-53 | every `http://` and `https://` URL has a request path |
| Http.ApiCall | lib/puppet/provider/git_integration/gitlab.rb:29-70 | an unparsable URL or one without a request path raises and sends nothing; otherwise the request built step by step is the one `Exchange` describes, and the reply is the server's answer to it |
| GitlabProvider.EncodeProjectName | lib/puppet/provider/git_integration/gitlab.rb:98 | the encoded name holds no `/` |
| GitlabProvider.EncodeProjectNameInvertible | lib/puppet/provider/git_integration/gitlab.rb:98 | for names without `%`, decoding `%2F` gives back the stripped name |
| GitlabProvider.EncodeProjectNameExample | lib/puppet/provider/git_integration/gitlab.rb:98 | `group/project` and ` group/project\n` both encode to `group%2Fproject` |
| GitlabProvider.GmsServer | lib/puppet/provider/git_integration/gitlab.rb:11-14 | the server has no whitespace or NUL at either end, and is never longer than server_url |
| GitlabProvider.ProjectUrl | lib/puppet/provider/git_integration/gitlab.rb:100 | the URL is the projects root followed by a single path segment: no `/` after the root |
| GitlabProvider.IntegrationUrl | lib/puppet/provider/git_integration/gitlab.rb:76 | the projects root, the project id, `/integrations/` and the name; `IntegrationUrlInjective` and `ValidServerHasRequestUri` state its properties |
| GitlabProvider.ValidServerHasRequestUri | lib/puppet/provider/git_integration/gitlab.rb:76-78 | once server_url has passed its validator, an integration URL always has a request path, so a parsable one is always sent |
| GitlabProvider.DefaultServerIsHttpUrl | lib/puppet/provider/git_integration/gitlab.rb:13 | the fallback server `https://gitlab.com` is an https URL |
| GitlabProvider.StripKeepsHttpUrl | lib/puppet/provider/git_integration/gitlab.rb:12 | stripping an http(s) URL leaves an http(s) URL |
| GitlabProvider.GmsServerIsHttpUrl | lib/puppet/provider/git_integration/gitlab.rb:11-14 | once server_url has passed its validator, the server is always an http(s) URL |
| GitlabProvider.HttpsServerUsesTls | lib/puppet/provider/git_integration/gitlab.rb:34 | with an https server, every request to an integration goes over TLS |
| GitlabProvider.DefaultServerUsesTls | lib/puppet/provider/git_integration/gitlab.rb:13 | without server_url, every request to an integration goes over TLS |
| GitlabProvider.IntegrationUrlInjective | lib/puppet/provider/git_integration/gitlab.rb:76 | different project ids give different integration URLs |
| GitlabProvider.LookupOutcome | lib/puppet/provider/git_integration/gitlab.rb:104 | an id is produced only from a reply whose body parsed |
| GitlabProvider.LookupReadsId | lib/puppet/provider/git_integration/gitlab.rb:104 | a numeric `id` is the project id, whatever the status |
| GitlabProvider.LookupReadsIdText | lib/puppet/provider/git_integration/gitlab.rb:104 | an `id` holding a number's decimal text yields that number |
| GitlabProvider.LookupReadsIdValue | lib/puppet/provider/git_integration/gitlab.rb:102-105 | for every object body holding `id`, whatever the status, the project id is that value after `.to_i`, and a value without `to_i` is an error |
| GitlabProvider.LookupLeadingSpaceId | lib/puppet/provider/git_integration/gitlab.rb:104 | `{"id": " 7"}` yields project 7 |
| GitlabProvider.LookupTrailingTextId | lib/puppet/provider/git_integration/gitlab.rb:104 | `{"id": "42abc"}` yields project 42 |
| GitlabProvider.LookupNullId | lib/puppet/provider/git_integration/gitlab.rb:104 | `{"id": null}` yields project 0 |
| GitlabProvider.LookupBooleanIdRaises | lib/puppet/provider/git_integration/gitlab.rb:104 | `{"id": true}` or `{"id": false}` is an error, since a boolean has no `to_i` |
| GitlabProvider.LookupMissingIdIsZero | lib/puppet/provider/git_integration/gitlab.rb:104 | an object without `id` yields project 0, not an error |
| GitlabProvider.ResolveProjectId | lib/puppet/provider/git_integration/gitlab.rb:91-110 | get_project_id as a value; `ResolveWithoutLookup` and `ResolveByName` state what it sends and returns |
| GitlabProvider.ResolveWithoutLookup | lib/puppet/provider/git_integration/gitlab.rb:92-96 | a given project_id is returned with no request, whatever the name; with neither id nor name the error comes before any request |
| GitlabProvider.ResolveByName | lib/puppet/provider/git_integration/gitlab.rb:98-108 | by name, at most one GET of the project URL, with no body, is sent; every failure becomes a lookup error; the id is read from that one reply |
| GitlabProvider.GetProjectId | lib/puppet/provider/git_integration/gitlab.rb:91-110 | the method returns the id, or error, and the requests that `ResolveProjectId` describes |
| GitlabProvider.Classify | lib/puppet/provider/git_integration/gitlab.rb:80-88 | present exactly when the parsed body's `active` is the boolean true |
| GitlabProvider.ClassifyObject | lib/puppet/provider/git_integration/gitlab.rb:80-88 | on an object body, present exactly when `active` is true, whatever the status; `{}`, `active: false` and `active: "true"` are absent |
| GitlabProvider.ExistsFlow | lib/puppet/provider/git_integration/gitlab.rb:72-89 | exists? as a value; `ExistsOnlyOnActive` states what it sends and when it is true |
| GitlabProvider.Exists | lib/puppet/provider/git_integration/gitlab.rb:72-89 | the method returns the answer and the requests that `ExistsFlow` describes |
| GitlabProvider.ExistsOnlyOnActive | lib/puppet/provider/git_integration/gitlab.rb:78-88 | after the lookup, exists? sends at most one GET without a body, and is true exactly when the reply's body has `active: true` |
| GitlabProvider.CreatePayload | lib/puppet/provider/git_integration/gitlab.rb:135-178 | the payload create sends; `CreatePayloadMeetsDescription` and `CreatePayloadUnique` characterise it |
| GitlabProvider.CreatePayloadMeetsDescription | lib/puppet/provider/git_integration/gitlab.rb:139-175 | the payload holds the stripped webhook. It holds `enable_ssl_verification` exactly when disable_ssl_verify is selected, as `"false"` when that flag is true and `"true"` otherwise. It holds each of the six event properties with its value exactly when selected, and nothing else |
| GitlabProvider.PayloadThroughFits | lib/puppet/provider/git_integration/gitlab.rb:149-175 | any sequence of conditional inserts over distinct properties yields a payload that meets the description for those properties |
| GitlabProvider.AddEventField | lib/puppet/provider/git_integration/gitlab.rb:149-151 | one conditional insert extends a payload meeting the description by exactly one property |
| GitlabProvider.CreatePayloadUnique | lib/puppet/provider/git_integration/gitlab.rb:139-175 | the payload description fixes a single map |
| GitlabProvider.PayloadForUnique | lib/puppet/provider/git_integration/gitlab.rb:139-175 | two payloads that meet the description for the same properties are equal |
| GitlabProvider.NoFieldNamed | lib/puppet/provider/git_integration/gitlab.rb:139-175 | a name that is neither a fixed field nor the field of one of the forwarded properties is never in the payload |
| GitlabProvider.NoFieldOutside | lib/puppet/provider/git_integration/gitlab.rb:149-175 | a boolean property outside the forwarded ones never has a field in the payload |
| GitlabProvider.UnsentEvents | lib/puppet/provider/git_integration/gitlab.rb:149-175 | issues_events, pipeline_events and wiki_page_events are not among the six properties create forwards |
| GitlabProvider.CreatePayloadOmits | lib/puppet/provider/git_integration/gitlab.rb:153-155 | `issues_events`, `pipeline_events`, `wiki_page_events` and `branches_to_be_notified` are never sent |
| GitlabProvider.SixInsertsBuildPayload | lib/puppet/provider/git_integration/gitlab.rb:149-175 | the base payload followed by one conditional insert per event property, in the order create tests them, is `CreatePayload` |
| GitlabProvider.BaseOptions | lib/puppet/provider/git_integration/gitlab.rb:139-147 | the payload starts as the stripped webhook plus, when disable_ssl_verify is selected, enable_ssl_verification as the opposite string; this is `PayloadBase`, which `PayloadThroughFits` shows meets the payload characterisation |
| GitlabProvider.SetIfSelected | lib/puppet/provider/git_integration/gitlab.rb:149-151 | one conditional insert: the property's field is set to its value exactly when the property is selected, otherwise the payload is unchanged |
| GitlabProvider.BuildPayload | lib/puppet/provider/git_integration/gitlab.rb:139-175 | create's successive inserts into `opts` build exactly `CreatePayload` |
| GitlabProvider.CreateOutcome | lib/puppet/provider/git_integration/gitlab.rb:179-183 | create succeeds exactly on status 200 |
| GitlabProvider.DestroyOutcome | lib/puppet/provider/git_integration/gitlab.rb:197-201 | destroy succeeds exactly on status 204 |
| GitlabProvider.CreateFlow | lib/puppet/provider/git_integration/gitlab.rb:133-187 | create as a value; `CreateOnlyPuts` states what it sends and when it succeeds |
| GitlabProvider.DestroyFlow | lib/puppet/provider/git_integration/gitlab.rb:189-206 | destroy as a value; `DestroyOnlyDeletes` states what it sends and when it succeeds |
| GitlabProvider.Create | lib/puppet/provider/git_integration/gitlab.rb:133-187 | the method returns the outcome and the requests that `CreateFlow` describes |
| GitlabProvider.Destroy | lib/puppet/provider/git_integration/gitlab.rb:189-206 | the method returns the outcome and the requests that `DestroyFlow` describes |
| GitlabProvider.FlowsShareTheIntegrationUrl | lib/puppet/provider/git_integration/gitlab.rb:136 | once the id is known and the integration URL can be sent to, exists?, create and destroy each send one more request, all to the same integration URL: a GET and a DELETE without a body, and a PUT carrying `CreatePayload` |
| GitlabProvider.CreateOnlyPuts | lib/puppet/provider/git_integration/gitlab.rb:177-183 | after the lookup, create sends at most one PUT, always with a body, and none when the webhook is missing; it succeeds exactly when that PUT is answered with 200 |
| GitlabProvider.DestroyOnlyDeletes | lib/puppet/provider/git_integration/gitlab.rb:195-201 | after the lookup, destroy sends only DELETEs and reads no integration state; it succeeds exactly on 204, so a 404 raises |

## Left out

- The Net::HTTP transport, sockets, TLS set-up and `VERIFY_NONE` are left out (gitlab.rb:32-36, 65). They are I/O. The model keeps only the TLS decision and the request record, and the server is a function parameter.
- Net::HTTP's default headers (`accept`, `user-agent` and so on) are left out. Only the headers the provider sets are modelled.
- Debug output and `Puppet.debug` logging are left out, and so is `calling_method`, which inspects the call stack. These only shape message text. Error messages are modelled as a `Failure` kind, not as text.
- `get_token` and the `PuppetX::GMS` mixins (token, token_file, username and password parameters, `validate_token_or_token_file`) are left out: their code is not part of this model. The token is a parameter.
- JSON parsing and serialisation are left out. A body is an already-parsed value, or `Malformed` for a parse error. A payload is a map. Floating-point numbers are not modelled.
- `get_integration_id` (gitlab.rb:112-131) is left out. It calls `active?` on a parsed Hash, which Hash does not define, so it cannot succeed as written. No operation uses it.
- The empty getters and setters and `issues_events=` (gitlab.rb:208-220) are left out. The setter writes to an undefined `opts`. The commented-out `branches_to_be_notified` payload code is left out too.
- Puppet framework semantics are left out: `ensurable`, `defaultfor`, `property` versus `newproperty`, and the `resource.x?` predicates. Each `x?` is an opaque input, the set `selected`.
- GitIntegrationType.MungeProjectId: reads decimal text only, through RubyString.ParseInteger. The model accepts surrounding whitespace, an optional `+` or `-`, and digits with single underscores between them, with no leading zero unless the numeral is `0`. `Integer()` also takes the `0x`, `0b`, `0o` and `0d` prefixes and reads a numeral with a leading zero as octal (`"012"` is 10, `"00"` is 0); the model rejects all of these. Where `Integer()` raises (`"09"`, `"1__0"`), the model rejects too.
- Http.HasRequestUri: counts `ws` and `wss` as having `request_uri`, as URI::WS does from Ruby 2.7 on; an older Ruby raises for them too.
- GitIntegrationType.ValidatorsMatchPatterns: covers the patterns on single-line input. Ruby's `^` and `$` anchor at any line break, and that behaviour is not modelled.
- Http.ParseUri: models URI.parse only as far as the scheme and the port. It does not cover IPv6 literals, percent-encoding checks, or the host and path grammar. An unparsable URL is one holding a character no URI may contain, or a port that is not a number.
- RubyString.ParseInteger: models `Integer()` on decimal text only, as described on the MungeProjectId line above; the rows for ParseInteger, ParseIntegerGrammar, ParseIntegerSpells and LeadingZeroRefused describe that decimal-only reader.
- RubyString.Downcase: folds ASCII letters only, not the rest of Unicode.
- Http.Request.AddField: replaces an existing header of the same name instead of appending a second value. The request is fresh and has no such header, so nothing observable changes.
