/**
 * The `git_integration` resource type: the accepted integration names, the
 * two enumerations and their defaults, the twelve boolean properties that
 * default to false, the webhook and server_url validators and the
 * project_id / project_name munges. `Instantiate` turns what a manifest
 * declares into the resource the provider works on, or rejects it.
 */
module GitIntegrationType {
  import opened Wrappers
  import opened RubyString
  import Pattern

  // ---------------------------------------------------------------------
  // name
  // ---------------------------------------------------------------------

  /** The integration identifiers `name` accepts, in declaration order. */
  const IntegrationNames: seq<string> := [
    "apple_app_store", "asana", "assembla", "bamboo", "bugzilla", "buildkite", "campfire",
    "datadog", "unify-circuit", "pumble", "webex-teams", "custom-issue-tracker", "discord",
    "drone-ci", "emails-on-push", "ewm", "confluence", "shimo", "external-wiki", "github",
    "hangouts-chat", "irker", "jira", "slack-slash-commands", "mattermost-slash-commands",
    "packagist", "pipelines-email", "pivotaltracker", "prometheus", "pushover", "redmine",
    "slack", "microsoft-teams", "mattermost", "teamcity", "jenkins", "jenkins-deprecated",
    "mock-ci", "squash-tm", "youtrack"
  ]

  predicate ValidName(s: string) {
    s in IntegrationNames
  }

  /** The list has forty entries; `slack`, `hangouts-chat` and the hyphenated `jenkins-deprecated` are among them. */
  lemma IntegrationNamesFacts()
    ensures |IntegrationNames| == 40
    ensures ValidName("slack") && ValidName("hangouts-chat") && ValidName("jenkins-deprecated")
  {
    assert IntegrationNames[31] == "slack";
    assert IntegrationNames[20] == "hangouts-chat";
    assert IntegrationNames[36] == "jenkins-deprecated";
  }

  // ---------------------------------------------------------------------
  // ensure, branches_to_be_notified, gitlab_api_version
  // ---------------------------------------------------------------------

  datatype Ensure = Present | Absent

  datatype Branches = All | Default | Protected | DefaultAndProtected

  function BranchesName(b: Branches): string {
    match b
    case All => "all"
    case Default => "default"
    case Protected => "protected"
    case DefaultAndProtected => "default_and_protected"
  }

  /** The value `branches_to_be_notified` accepts for a string, if any. */
  function ParseBranches(s: string): (r: Option<Branches>)
    ensures r.Some? ==> BranchesName(r.value) == s
  {
    if s == "all" then Some(All)
    else if s == "default" then Some(Default)
    else if s == "protected" then Some(Protected)
    else if s == "default_and_protected" then Some(DefaultAndProtected)
    else None
  }

  /** Every value is accepted under its own name: parsing inverts naming. */
  lemma ParseBranchesName(b: Branches)
    ensures ParseBranches(BranchesName(b)) == Some(b)
  {
    match b
    case All =>
    case Default =>
    case Protected =>
    case DefaultAndProtected =>
  }

  datatype ApiVersion = V3 | V4

  function ApiVersionName(v: ApiVersion): string {
    match v
    case V3 => "v3"
    case V4 => "v4"
  }

  function ParseApiVersion(s: string): (r: Option<ApiVersion>)
    ensures r.Some? ==> ApiVersionName(r.value) == s
  {
    if s == "v3" then Some(V3) else if s == "v4" then Some(V4) else None
  }

  lemma ParseApiVersionName(v: ApiVersion)
    ensures ParseApiVersion(ApiVersionName(v)) == Some(v)
  {
    match v
    case V3 =>
    case V4 =>
  }

  // ---------------------------------------------------------------------
  // The twelve boolean properties
  // ---------------------------------------------------------------------

  datatype Flag =
    | NotifyOnlyBrokenPipelines
    | NotifyOnlyDefaultBranch
    | PushEvents
    | IssuesEvents
    | ConfidentialIssuesEvents
    | MergeRequestsEvents
    | TagPushEvents
    | NoteEvents
    | ConfidentialNoteEvents
    | PipelineEvents
    | WikiPageEvents
    | DisableSslVerify

  const AllFlags: set<Flag> := {
    NotifyOnlyBrokenPipelines, NotifyOnlyDefaultBranch, PushEvents, IssuesEvents,
    ConfidentialIssuesEvents, MergeRequestsEvents, TagPushEvents, NoteEvents,
    ConfidentialNoteEvents, PipelineEvents, WikiPageEvents, DisableSslVerify
  }

  /** The property's name, which is also the field name GitLab uses for it. */
  function FlagName(f: Flag): string {
    match f
    case NotifyOnlyBrokenPipelines => "notify_only_broken_pipelines"
    case NotifyOnlyDefaultBranch => "notify_only_default_branch"
    case PushEvents => "push_events"
    case IssuesEvents => "issues_events"
    case ConfidentialIssuesEvents => "confidential_issues_events"
    case MergeRequestsEvents => "merge_requests_events"
    case TagPushEvents => "tag_push_events"
    case NoteEvents => "note_events"
    case ConfidentialNoteEvents => "confidential_note_events"
    case PipelineEvents => "pipeline_events"
    case WikiPageEvents => "wiki_page_events"
    case DisableSslVerify => "disable_ssl_verify"
  }

  /** The property a field name stands for, if any. */
  function ParseFlagName(s: string): (f: Option<Flag>)
    ensures f.Some? ==> FlagName(f.value) == s
  {
    if s == "notify_only_broken_pipelines" then Some(NotifyOnlyBrokenPipelines)
    else if s == "notify_only_default_branch" then Some(NotifyOnlyDefaultBranch)
    else if s == "push_events" then Some(PushEvents)
    else if s == "issues_events" then Some(IssuesEvents)
    else if s == "confidential_issues_events" then Some(ConfidentialIssuesEvents)
    else if s == "merge_requests_events" then Some(MergeRequestsEvents)
    else if s == "tag_push_events" then Some(TagPushEvents)
    else if s == "note_events" then Some(NoteEvents)
    else if s == "confidential_note_events" then Some(ConfidentialNoteEvents)
    else if s == "pipeline_events" then Some(PipelineEvents)
    else if s == "wiki_page_events" then Some(WikiPageEvents)
    else if s == "disable_ssl_verify" then Some(DisableSslVerify)
    else None
  }

  lemma ParseFirstFlagNames()
    ensures ParseFlagName(FlagName(NotifyOnlyBrokenPipelines)) == Some(NotifyOnlyBrokenPipelines)
    ensures ParseFlagName(FlagName(NotifyOnlyDefaultBranch)) == Some(NotifyOnlyDefaultBranch)
    ensures ParseFlagName(FlagName(PushEvents)) == Some(PushEvents)
    ensures ParseFlagName(FlagName(IssuesEvents)) == Some(IssuesEvents)
  {
  }

  lemma ParseMiddleFlagNames()
    ensures ParseFlagName(FlagName(ConfidentialIssuesEvents)) == Some(ConfidentialIssuesEvents)
    ensures ParseFlagName(FlagName(MergeRequestsEvents)) == Some(MergeRequestsEvents)
    ensures ParseFlagName(FlagName(TagPushEvents)) == Some(TagPushEvents)
    ensures ParseFlagName(FlagName(NoteEvents)) == Some(NoteEvents)
  {
  }

  lemma ParseLastFlagNames()
    ensures ParseFlagName(FlagName(ConfidentialNoteEvents)) == Some(ConfidentialNoteEvents)
    ensures ParseFlagName(FlagName(PipelineEvents)) == Some(PipelineEvents)
    ensures ParseFlagName(FlagName(WikiPageEvents)) == Some(WikiPageEvents)
    ensures ParseFlagName(FlagName(DisableSslVerify)) == Some(DisableSslVerify)
  {
  }

  /** Every property is found again under its own name, so no two share a name. */
  lemma ParseFlagNameOf(f: Flag)
    ensures ParseFlagName(FlagName(f)) == Some(f)
  {
    ParseFirstFlagNames();
    ParseMiddleFlagNames();
    ParseLastFlagNames();
  }

  lemma AllFlagsComplete(f: Flag)
    ensures f in AllFlags
  {
    match f
    case NotifyOnlyBrokenPipelines =>
    case NotifyOnlyDefaultBranch =>
    case PushEvents =>
    case IssuesEvents =>
    case ConfidentialIssuesEvents =>
    case MergeRequestsEvents =>
    case TagPushEvents =>
    case NoteEvents =>
    case ConfidentialNoteEvents =>
    case PipelineEvents =>
    case WikiPageEvents =>
    case DisableSslVerify =>
  }

  // ---------------------------------------------------------------------
  // Validators and munges
  // ---------------------------------------------------------------------

  /** The webhook validator: its pattern accepts exactly the strings with no `\s` character. */
  predicate WebhookValid(s: string) {
    Pattern.NoSpace(s)
  }

  /** The server_url validator: `http://` or `https://`, then anything but a line feed. */
  predicate ServerUrlValid(s: string) {
    Pattern.IsHttpUrl(s)
  }

  /** The two predicates accept exactly what the source's regular expressions match. */
  lemma ValidatorsMatchPatterns(s: string)
    ensures WebhookValid(s) <==> Pattern.Matches(Pattern.WebhookPattern(), s)
    ensures ServerUrlValid(s) <==> Pattern.Matches(Pattern.ServerUrlPattern(), s)
  {
    Pattern.WebhookPatternIsNoSpace(s);
    Pattern.ServerUrlPatternIsHttpUrl(s);
  }

  /** A parameter value as a manifest gives it. */
  datatype Param = PInt(i: int) | PStr(s: string)

  /**
   * `Integer(value)` for project_id: an integer is kept; a string is
   * accepted exactly when it spells a decimal integer (whitespace, an
   * optional sign, a numeral, whitespace) and then gives that integer.
   */
  function MungeProjectId(p: Param): (r: Option<int>)
    ensures p.PInt? ==> r == Some(p.i)
    ensures p.PStr? ==> forall n :: r == Some(n) <==> IntegerText(p.s, n)
  {
    match p
    case PInt(i) => Some(i)
    case PStr(s) =>
      ParseIntegerGrammar(s);
      ParseInteger(s)
  }

  /** `String(value)` for project_name. */
  function MungeProjectName(p: Param): (r: string)
    ensures p.PStr? ==> r == p.s
  {
    match p
    case PStr(s) => s
    case PInt(i) => IntToString(i)
  }

  /** A numeric project_name munges to a string that project_id would munge back to the same number. */
  lemma MungeProjectIdName(n: int)
    ensures MungeProjectId(PStr(MungeProjectName(PInt(n)))) == Some(n)
  {
    ParseIntegerIntToString(n);
  }

  // ---------------------------------------------------------------------
  // From declaration to resource
  // ---------------------------------------------------------------------

  /** What a manifest declares; None and absent map keys mean "not given". */
  datatype Declared = Declared(
    name: string,
    ensure: Option<Ensure>,
    webhook: Option<string>,
    projectId: Option<Param>,
    projectName: Option<Param>,
    flags: map<Flag, bool>,
    selected: set<Flag>,
    branches: Option<string>,
    serverUrl: Option<string>,
    apiVersion: Option<string>)

  /**
   * The resource the provider sees: validated, munged and with defaults filled.
   * `selected` holds the properties whose `resource.x?` predicate is true; the
   * provider treats it as an opaque input.
   */
  datatype Resource = Resource(
    name: string,
    ensure: Ensure,
    webhook: Option<string>,
    projectId: Option<int>,
    projectName: Option<string>,
    flags: map<Flag, bool>,
    selected: set<Flag>,
    branches: Branches,
    serverUrl: Option<string>,
    apiVersion: ApiVersion)

  datatype Rejection =
    | BadName(name: string)
    | BadWebhook(webhook: string)
    | BadProjectId
    | BadBranches(value: string)
    | BadServerUrl(url: string)
    | BadApiVersion(value: string)

  /** Every declared value passes its validator. */
  predicate Acceptable(d: Declared) {
    && ValidName(d.name)
    && (d.webhook.Some? ==> WebhookValid(d.webhook.value))
    && (d.projectId.Some? ==> MungeProjectId(d.projectId.value).Some?)
    && (d.branches.Some? ==> ParseBranches(d.branches.value).Some?)
    && (d.serverUrl.Some? ==> ServerUrlValid(d.serverUrl.value))
    && (d.apiVersion.Some? ==> ParseApiVersion(d.apiVersion.value).Some?)
  }

  function FillFlags(given: map<Flag, bool>): map<Flag, bool> {
    map f | f in AllFlags :: if f in given then given[f] else false
  }

  /** Every property gets a value: the declared one, or false. */
  lemma FillFlagsFacts(given: map<Flag, bool>)
    ensures FillFlags(given).Keys == AllFlags
    ensures forall f :: f in FillFlags(given) ==> FillFlags(given)[f] == (f in given && given[f])
  {
    forall f: Flag ensures f in AllFlags {
      AllFlagsComplete(f);
    }
  }

  /**
   * The first validator that refuses a declared value, in the order Puppet
   * sets a resource's attributes: the namevar, then the properties
   * (`branches_to_be_notified` is the only one with a validator), then the
   * parameters in declaration order.
   */
  function FirstRejection(d: Declared): (e: Option<Rejection>)
    ensures e.None? <==> Acceptable(d)
    ensures !ValidName(d.name) ==> e == Some(BadName(d.name))
    ensures ValidName(d.name) && d.branches.Some? && ParseBranches(d.branches.value).None? ==>
      e == Some(BadBranches(d.branches.value))
  {
    if !ValidName(d.name) then Some(BadName(d.name))
    else if d.branches.Some? && ParseBranches(d.branches.value).None? then Some(BadBranches(d.branches.value))
    else if d.webhook.Some? && !WebhookValid(d.webhook.value) then Some(BadWebhook(d.webhook.value))
    else if d.projectId.Some? && MungeProjectId(d.projectId.value).None? then Some(BadProjectId)
    else if d.serverUrl.Some? && !ServerUrlValid(d.serverUrl.value) then Some(BadServerUrl(d.serverUrl.value))
    else if d.apiVersion.Some? && ParseApiVersion(d.apiVersion.value).None? then Some(BadApiVersion(d.apiVersion.value))
    else None
  }

  /**
   * A property is validated before any parameter: with both webhook and
   * branches_to_be_notified bad, the branches value is the one reported.
   */
  lemma BranchesRejectedBeforeWebhook()
    ensures FirstRejection(Declared("slack", None, Some("a b"), None, None, map[], {}, Some("none"), None, None))
      == Some(BadBranches("none"))
  {
    IntegrationNamesFacts();
  }

  /** The resource a declaration gives once its values are accepted: munged values and defaults filled in. */
  function FillDefaults(d: Declared): (res: Resource)
    requires d.branches.Some? ==> ParseBranches(d.branches.value).Some?
    requires d.apiVersion.Some? ==> ParseApiVersion(d.apiVersion.value).Some?
    ensures res.name == d.name && res.webhook == d.webhook && res.serverUrl == d.serverUrl
    ensures res.selected == d.selected
    ensures d.projectId.None? ==> res.projectId.None?
    ensures d.projectId.Some? ==> res.projectId == MungeProjectId(d.projectId.value)
    ensures d.projectName.None? ==> res.projectName.None?
    ensures d.projectName.Some? ==> res.projectName == Some(MungeProjectName(d.projectName.value))
    ensures res.ensure == (if d.ensure.Some? then d.ensure.value else Present)
    ensures res.flags.Keys == AllFlags
    ensures forall f :: f in res.flags ==> res.flags[f] == (f in d.flags && d.flags[f])
    ensures d.branches.None? ==> res.branches == Default
    ensures d.branches.Some? ==> BranchesName(res.branches) == d.branches.value
    ensures d.apiVersion.None? ==> res.apiVersion == V4
    ensures d.apiVersion.Some? ==> ApiVersionName(res.apiVersion) == d.apiVersion.value
  {
    FillFlagsFacts(d.flags);
    Resource(
      d.name,
      if d.ensure.Some? then d.ensure.value else Present,
      d.webhook,
      if d.projectId.Some? then MungeProjectId(d.projectId.value) else None,
      if d.projectName.Some? then Some(MungeProjectName(d.projectName.value)) else None,
      FillFlags(d.flags),
      d.selected,
      if d.branches.Some? then ParseBranches(d.branches.value).value else Default,
      d.serverUrl,
      if d.apiVersion.Some? then ParseApiVersion(d.apiVersion.value).value else V4)
  }

  /**
   * Validates a declaration and fills the defaults: ensure present, every
   * boolean false, branches_to_be_notified `default`, gitlab_api_version `v4`.
   */
  function Instantiate(d: Declared): (r: Result<Resource, Rejection>)
    ensures r.Ok? <==> Acceptable(d)
    ensures r.Err? ==> Some(r.error) == FirstRejection(d)
    ensures r.Ok? ==> var res := r.value;
      && res.name == d.name
      && res.webhook == d.webhook
      && res.serverUrl == d.serverUrl
      && res.selected == d.selected
      && (d.projectId.None? ==> res.projectId.None?)
      && (d.projectId.Some? ==> res.projectId == MungeProjectId(d.projectId.value))
      && (d.projectName.None? ==> res.projectName.None?)
      && (d.projectName.Some? ==> res.projectName == Some(MungeProjectName(d.projectName.value)))
      && res.ensure == (if d.ensure.Some? then d.ensure.value else Present)
      && res.flags.Keys == AllFlags
      && (forall f :: f in res.flags ==> res.flags[f] == (f in d.flags && d.flags[f]))
      && (d.branches.None? ==> res.branches == Default)
      && (d.branches.Some? ==> BranchesName(res.branches) == d.branches.value)
      && (d.apiVersion.None? ==> res.apiVersion == V4)
      && (d.apiVersion.Some? ==> ApiVersionName(res.apiVersion) == d.apiVersion.value)
  {
    match FirstRejection(d)
    case Some(e) => Err(e)
    case None => Ok(FillDefaults(d))
  }
}
