/**
 * The project-configuration cache of `app/api/jira-project-config/route.ts`:
 * a stored configuration younger than one day is answered from the store;
 * otherwise the configuration is fetched from Jira, reduced to what the
 * application needs, and upserted under the credential's id.
 *
 * `Date.now()` is the parameter `now` (milliseconds) and the outcome of the
 * fetch is the parameter `fetch`.
 */
module ProjectConfig {
  import opened Common
  import opened Json
  import JiraCredentials

  /** `24 * 60 * 60 * 1000`. */
  const OneDayMs: int := 24 * 60 * 60 * 1000

  /** One issue type, reduced to the four members the application keeps. */
  datatype IssueTypeSummary = IssueTypeSummary(
    id: Option<Json>,
    name: Option<Json>,
    description: Option<Json>,
    subtask: Option<Json>)

  /** What `projects[0]` yields: its key, its name and its reduced issue types. */
  datatype Project = Project(key: Option<Json>, name: Option<Json>, issueTypes: seq<IssueTypeSummary>)

  /** A stored configuration row; `updatedAt` is the time of its last write. */
  datatype StoredConfig = StoredConfig(
    projectKey: Option<Json>,
    projectName: Option<Json>,
    issueTypes: seq<IssueTypeSummary>,
    updatedAt: int)

  /**
   * How the call to Jira ended: it threw, or Jira answered; `body` is `None`
   * when `response.json()` throws.
   */
  datatype Fetch = FetchThrew | Fetched(ok: bool, body: Option<Json>)

  datatype ConfigReply =
    | Config(projectKey: Option<Json>, projectName: Option<Json>,
             issueTypes: seq<IssueTypeSummary>, cached: bool)
    | ConfigFailed(status: int, message: string)

  const FetchFailedMessage := "Failed to fetch Jira project configuration"

  /** `configAge < oneDay`, with `configAge = now - updatedAt`. */
  predicate IsFresh(now: int, updatedAt: int)
  {
    now - updatedAt < OneDayMs
  }

  /** A configuration is reused for strictly less than 86 400 000 ms after its write. */
  lemma FreshnessWindow(now: int, updatedAt: int)
    ensures IsFresh(now, updatedAt) <==> now < updatedAt + 86_400_000
    ensures !IsFresh(updatedAt + 86_400_000, updatedAt)
    ensures IsFresh(updatedAt + 86_399_999, updatedAt)
  {
  }

  /** `({ id, name, description, subtask })` of one element. */
  function Summarize(v: Json): IssueTypeSummary
  {
    IssueTypeSummary(Member(v, "id"), Member(v, "name"), Member(v, "description"), Member(v, "subtask"))
  }

  /**
   * `issuetypes.map(...)`: `None` when an element is `null` (reading its
   * `id` throws); otherwise one summary per element, in order.
   */
  function SummarizeAll(items: seq<Json>): (r: Option<seq<IssueTypeSummary>>)
    ensures r.None? <==> exists i :: 0 <= i < |items| && items[i] == JNull
    ensures r.Some? ==> |r.value| == |items|
    ensures r.Some? ==> forall i :: 0 <= i < |items| ==> r.value[i] == Summarize(items[i])
  {
    if |items| == 0 then Some([])
    else if items[0] == JNull then None
    else
      var rest := SummarizeAll(items[1..]);
      assert forall i :: 1 <= i < |items| ==> items[i] == items[1..][i - 1];
      match rest
      case None => None
      case Some(ss) => Some([Summarize(items[0])] + ss)
  }

  /**
   * `data.projects[0]` and its issue types. Every step that would throw a
   * TypeError gives `None`: `data` null, no `projects`, no first project,
   * `issuetypes` that is not an array, a null issue type.
   */
  function ExtractProject(data: Json): (r: Option<Project>)
    ensures r.Some? ==>
      exists projects, project ::
        && Member(data, "projects") == Some(projects) && projects != JNull
        && Index0(projects) == Some(project)
        && Member(project, "key") == r.value.key && Member(project, "name") == r.value.name
        && Member(project, "issuetypes").Some? && Member(project, "issuetypes").value.JArr?
        && SummarizeAll(Member(project, "issuetypes").value.items) == Some(r.value.issueTypes)
  {
    match Member(data, "projects")
    case None => None
    case Some(projects) =>
      if projects == JNull then None
      else match Index0(projects)
        case None => None
        case Some(project) =>
          if project == JNull then None
          else
            var issueTypes := Member(project, "issuetypes");
            if issueTypes.None? || !issueTypes.value.JArr? then None
            else match SummarizeAll(issueTypes.value.items)
              case None => None
              case Some(summaries) => Some(Project(Member(project, "key"), Member(project, "name"), summaries))
  }

  /** An empty `projects` list makes the handler fail. */
  lemma EmptyProjectsFail(data: Json)
    requires Member(data, "projects") == Some(JArr([]))
    ensures ExtractProject(data).None?
  {
  }

  /**
   * Whatever else the answer holds (`expand`, for one), a `projects` array
   * whose first element is an object with an `issuetypes` array free of
   * nulls yields that project's key and name, with one summary per issue
   * type in the same order.
   */
  lemma {:induction false} ExtractFirstProject(fields: seq<(string, Json)>, issueTypes: seq<Json>,
                                               rest: seq<Json>, data: Json)
    requires Member(data, "projects") == Some(JArr([JObj(fields)] + rest))
    requires Lookup(fields, "issuetypes") == Some(JArr(issueTypes))
    requires forall i :: 0 <= i < |issueTypes| ==> issueTypes[i] != JNull
    ensures ExtractProject(data).Some?
    ensures ExtractProject(data).value.key == Lookup(fields, "key")
    ensures ExtractProject(data).value.name == Lookup(fields, "name")
    ensures |ExtractProject(data).value.issueTypes| == |issueTypes|
    ensures forall i :: 0 <= i < |issueTypes| ==>
      ExtractProject(data).value.issueTypes[i] == Summarize(issueTypes[i])
  {
    assert Index0(JArr([JObj(fields)] + rest)) == Some(JObj(fields));
  }

  /**
   * The outcome of the fetch, as the project it yields or `None` for a 500:
   * a fetch that did not throw, answered ok and gave a readable body yields
   * the extraction of that body; any other fetch yields nothing.
   */
  function FetchedProject(fetch: Fetch): (r: Option<Project>)
    ensures r.Some? ==> fetch.Fetched? && fetch.ok && fetch.body.Some?
    ensures fetch.Fetched? && fetch.ok && fetch.body.Some? ==> r == ExtractProject(fetch.body.value)
  {
    if fetch.Fetched? && fetch.ok && fetch.body.Some? then ExtractProject(fetch.body.value) else None
  }

  class ConfigTable {
    /** One configuration per credential, keyed by `jiraCredentialId`. */
    var configs: map<string, StoredConfig>

    constructor ()
      ensures configs == map[]
    {
      configs := map[];
    }

    /** `prisma.jiraProjectConfig.upsert` keyed by the credential id, stamped at `now`. */
    method Upsert(credentialId: string, p: Project, now: int)
      modifies this
      ensures configs == old(configs)[credentialId := StoredConfig(p.key, p.name, p.issueTypes, now)]
    {
      configs := configs[credentialId := StoredConfig(p.key, p.name, p.issueTypes, now)];
    }

    /**
     * `GET`. `creds` is the credential store, keyed by user. The reply is
     * the cached row exactly when one exists and is fresh; otherwise the
     * fetched project, which is then the one row stored for the credential.
     */
    method Get(session: Option<UserId>, creds: map<UserId, JiraCredentials.JiraCredential>,
               now: int, fetch: Fetch) returns (r: ConfigReply)
      modifies this
      ensures !Authenticated(session) ==>
        r == ConfigFailed(StatusUnauthorized, UnauthorizedMessage) && configs == old(configs)
      ensures Authenticated(session) && session.value !in creds ==>
        r == ConfigFailed(StatusBadRequest, CredentialsMissingMessage) && configs == old(configs)
      ensures Authenticated(session) && session.value in creds ==>
        var id := creds[session.value].id;
        if id in old(configs) && now - old(configs)[id].updatedAt < 86_400_000 then
          && r == Config(old(configs)[id].projectKey, old(configs)[id].projectName,
                         old(configs)[id].issueTypes, true)
          && configs == old(configs)
        else if FetchedProject(fetch).None? then
          && r == ConfigFailed(StatusServerError, FetchFailedMessage)
          && configs == old(configs)
        else
          var p := FetchedProject(fetch).value;
          && r == Config(p.key, p.name, p.issueTypes, false)
          && configs == old(configs)[id := StoredConfig(p.key, p.name, p.issueTypes, now)]
      ensures r.Config? ==> Authenticated(session) && session.value in creds && creds[session.value].id in configs
    {
      if !Authenticated(session) {
        return ConfigFailed(StatusUnauthorized, UnauthorizedMessage);
      }
      if session.value !in creds {
        return ConfigFailed(StatusBadRequest, CredentialsMissingMessage);
      }
      var cred := creds[session.value];
      if cred.id in configs {
        var stored := configs[cred.id];
        if IsFresh(now, stored.updatedAt) {
          return Config(stored.projectKey, stored.projectName, stored.issueTypes, true);
        }
      }
      var project := FetchedProject(fetch);
      if project.None? {
        return ConfigFailed(StatusServerError, FetchFailedMessage);
      }
      Upsert(cred.id, project.value, now);
      r := Config(project.value.key, project.value.name, project.value.issueTypes, false);
    }
  }
}
