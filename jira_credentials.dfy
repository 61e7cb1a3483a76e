/**
 * The Jira-credential store behind `app/api/jira-credentials/route.ts`:
 * at most one credential per user, written by an upsert keyed by the
 * user id, and never handed back with its API token.
 */
module JiraCredentials {
  import opened Common
  import opened Json

  /** A stored row: the generated id, its owner and the four submitted fields. */
  datatype JiraCredential = JiraCredential(
    id: string,
    userId: UserId,
    domain: string,
    email: string,
    apiToken: string,
    projectKey: string)

  /** The four fields a `POST` body must carry. */
  datatype CredentialInput = CredentialInput(
    domain: string,
    email: string,
    apiToken: string,
    projectKey: string)

  /** A row with its token taken out: what `POST` answers with. */
  datatype RedactedCredential = RedactedCredential(
    id: string,
    userId: UserId,
    domain: string,
    email: string,
    projectKey: string)

  /** The columns `GET` selects. */
  datatype CredentialSummary = CredentialSummary(
    id: string,
    domain: string,
    email: string,
    projectKey: string)

  datatype PostReply =
    | Saved(status: int, message: string, credentials: RedactedCredential)
    | PostFailed(status: int, message: string)

  datatype GetReply =
    | Found(status: int, credentials: Option<CredentialSummary>)
    | GetFailed(status: int, message: string)

  datatype DeleteReply = DeleteReply(status: int, message: string)

  const SavedMessage := "Jira credentials saved successfully"
  const DeletedMessage := "Jira credentials deleted successfully"

  /**
   * `jiraCredentialsSchema.parse(body)`. Whether a text is an e-mail address
   * is decided by `isEmail`, which stands for zod's e-mail check.
   */
  function ParseCredentialInput(body: Json, isEmail: string -> bool): (r: Option<CredentialInput>)
    ensures r.Some? ==>
      && Member(body, "domain") == Some(JStr(r.value.domain)) && r.value.domain != ""
      && Member(body, "email") == Some(JStr(r.value.email)) && isEmail(r.value.email)
      && Member(body, "apiToken") == Some(JStr(r.value.apiToken)) && r.value.apiToken != ""
      && Member(body, "projectKey") == Some(JStr(r.value.projectKey)) && r.value.projectKey != ""
  {
    var domain := NonEmptyText(Member(body, "domain"));
    var email := Member(body, "email");
    var token := NonEmptyText(Member(body, "apiToken"));
    var key := NonEmptyText(Member(body, "projectKey"));
    if domain.Some? && email.Some? && email.value.JStr? && isEmail(email.value.s)
       && token.Some? && key.Some?
    then Some(CredentialInput(domain.value, email.value.s, token.value, key.value))
    else None
  }

  lemma ParseCredentialInputComplete(body: Json, isEmail: string -> bool, c: CredentialInput)
    requires Member(body, "domain") == Some(JStr(c.domain)) && c.domain != ""
    requires Member(body, "email") == Some(JStr(c.email)) && isEmail(c.email)
    requires Member(body, "apiToken") == Some(JStr(c.apiToken)) && c.apiToken != ""
    requires Member(body, "projectKey") == Some(JStr(c.projectKey)) && c.projectKey != ""
    ensures ParseCredentialInput(body, isEmail) == Some(c)
  {
  }

  /** Put a token back into a redacted row. */
  function Restore(r: RedactedCredential, apiToken: string): JiraCredential
  {
    JiraCredential(r.id, r.userId, r.domain, r.email, apiToken, r.projectKey)
  }

  /** `const { apiToken: _, ...credentialsWithoutToken } = credentials`. */
  function Redact(c: JiraCredential): (r: RedactedCredential)
    ensures Restore(r, c.apiToken) == c
  {
    RedactedCredential(c.id, c.userId, c.domain, c.email, c.projectKey)
  }

  /** The redacted row holds nothing of the token: rows differing only in their token redact alike. */
  lemma RedactIgnoresToken(c: JiraCredential, token: string)
    ensures Redact(c.(apiToken := token)) == Redact(c)
  {
  }

  /** The `select` of `GET`. */
  function Summary(c: JiraCredential): (r: CredentialSummary)
    ensures r.id == c.id && r.domain == c.domain && r.email == c.email && r.projectKey == c.projectKey
  {
    CredentialSummary(c.id, c.domain, c.email, c.projectKey)
  }

  /** Every row is filed under its own owner. */
  ghost predicate KeyedByOwner(creds: map<UserId, JiraCredential>)
  {
    forall u :: u in creds ==> creds[u].userId == u
  }

  /** `freshId` is not the id of any stored row. */
  predicate IdUnused(creds: map<UserId, JiraCredential>, freshId: string)
  {
    forall u :: u in creds ==> creds[u].id != freshId
  }

  /**
   * `prisma.jiraCredential.upsert` keyed by `userId`: an update keeps the
   * row's id, a create gets `freshId`.
   */
  function Upserted(creds: map<UserId, JiraCredential>, u: UserId, c: CredentialInput, freshId: string)
    : (r: map<UserId, JiraCredential>)
    ensures r.Keys == creds.Keys + {u}
    ensures forall v :: v in creds && v != u ==> r[v] == creds[v]
    ensures r[u].userId == u && r[u].domain == c.domain && r[u].email == c.email
    ensures r[u].apiToken == c.apiToken && r[u].projectKey == c.projectKey
    ensures r[u].id == if u in creds then creds[u].id else freshId
  {
    var id := if u in creds then creds[u].id else freshId;
    creds[u := JiraCredential(id, u, c.domain, c.email, c.apiToken, c.projectKey)]
  }

  /** Row ids are a primary key: no two users' rows share one. */
  ghost predicate UniqueIds(creds: map<UserId, JiraCredential>)
  {
    forall u, v :: u in creds && v in creds && u != v ==> creds[u].id != creds[v].id
  }

  /** With an unused id, the upsert keeps the store keyed by owner and its ids unique. */
  lemma UpsertedKeepsInvariant(creds: map<UserId, JiraCredential>, u: UserId, c: CredentialInput, freshId: string)
    requires KeyedByOwner(creds) && UniqueIds(creds) && IdUnused(creds, freshId)
    ensures KeyedByOwner(Upserted(creds, u, c, freshId))
    ensures UniqueIds(Upserted(creds, u, c, freshId))
  {
  }

  /** Submitting the same data twice leaves the store as the first submission did. */
  lemma UpsertIdempotent(creds: map<UserId, JiraCredential>, u: UserId, c: CredentialInput, id1: string, id2: string)
    ensures Upserted(Upserted(creds, u, c, id1), u, c, id2) == Upserted(creds, u, c, id1)
  {
  }

  class CredentialStore {
    /** One row per user: `userId` is a unique column. */
    var creds: map<UserId, JiraCredential>

    ghost predicate Valid()
      reads this
    {
      KeyedByOwner(creds) && UniqueIds(creds)
    }

    constructor ()
      ensures Valid() && creds == map[]
    {
      creds := map[];
    }

    /** `POST`: validate the body, upsert the caller's row, answer without the token. */
    method Post(session: Option<UserId>, body: Option<Json>, isEmail: string -> bool, freshId: string)
      returns (r: PostReply)
      requires Valid() && IdUnused(creds, freshId)
      modifies this
      ensures Valid()
      ensures !Authenticated(session) ==>
        r == PostFailed(StatusUnauthorized, UnauthorizedMessage) && creds == old(creds)
      ensures Authenticated(session) && body.None? ==>
        r == PostFailed(StatusServerError, InternalErrorMessage) && creds == old(creds)
      ensures Authenticated(session) && body.Some? && ParseCredentialInput(body.value, isEmail).None? ==>
        r == PostFailed(StatusBadRequest, InvalidInputMessage) && creds == old(creds)
      ensures Authenticated(session) && body.Some? && ParseCredentialInput(body.value, isEmail).Some? ==>
        var u := session.value;
        && creds == Upserted(old(creds), u, ParseCredentialInput(body.value, isEmail).value, freshId)
        && r == Saved(StatusCreated, SavedMessage, Redact(creds[u]))
    {
      if !Authenticated(session) {
        return PostFailed(StatusUnauthorized, UnauthorizedMessage);
      }
      if body.None? {
        return PostFailed(StatusServerError, InternalErrorMessage);
      }
      var input := ParseCredentialInput(body.value, isEmail);
      if input.None? {
        return PostFailed(StatusBadRequest, InvalidInputMessage);
      }
      var u := session.value;
      UpsertedKeepsInvariant(creds, u, input.value, freshId);
      creds := Upserted(creds, u, input.value, freshId);
      r := Saved(StatusCreated, SavedMessage, Redact(creds[u]));
    }

    /** `GET`: the caller's row without its token, or null. */
    method Get(session: Option<UserId>) returns (r: GetReply)
      ensures !Authenticated(session) ==> r == GetFailed(StatusUnauthorized, UnauthorizedMessage)
      ensures Authenticated(session) ==> r.Found? && r.status == StatusOk
      ensures Authenticated(session) ==>
        (r.credentials.Some? <==> session.value in creds)
      ensures Authenticated(session) && session.value in creds ==>
        r.credentials == Some(Summary(creds[session.value]))
    {
      if !Authenticated(session) {
        return GetFailed(StatusUnauthorized, UnauthorizedMessage);
      }
      var u := session.value;
      if u in creds {
        r := Found(StatusOk, Some(Summary(creds[u])));
      } else {
        r := Found(StatusOk, None);
      }
    }

    /**
     * `DELETE`: remove the caller's row. Deleting a row that does not exist
     * makes the store throw, which the handler reports as a server error.
     */
    method Delete(session: Option<UserId>) returns (r: DeleteReply)
      requires Valid()
      modifies this
      ensures Valid()
      ensures !Authenticated(session) ==>
        r == DeleteReply(StatusUnauthorized, UnauthorizedMessage) && creds == old(creds)
      ensures Authenticated(session) && session.value !in old(creds) ==>
        r == DeleteReply(StatusServerError, InternalErrorMessage) && creds == old(creds)
      ensures Authenticated(session) && session.value in old(creds) ==>
        r == DeleteReply(StatusOk, DeletedMessage) && creds == old(creds) - {session.value}
    {
      if !Authenticated(session) {
        return DeleteReply(StatusUnauthorized, UnauthorizedMessage);
      }
      var u := session.value;
      if u !in creds {
        return DeleteReply(StatusServerError, InternalErrorMessage);
      }
      creds := creds - {u};
      r := DeleteReply(StatusOk, DeletedMessage);
    }
  }
}
