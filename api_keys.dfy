/**
 * The per-user table of language-model API keys behind
 * `app/api/api-keys/route.ts`: create, list and delete. A caller sees and
 * deletes only the keys they own, and no answer ever carries a secret key.
 */
module ApiKeys {
  import opened Common
  import opened Json

  /** A stored row. */
  datatype ApiKey = ApiKey(id: string, key: string, model: string, userId: UserId)

  /** What any answer shows of a row: its id and model, never the key. */
  datatype KeyView = KeyView(id: string, model: string)

  /** The two fields a `POST` body must carry. */
  datatype KeyInput = KeyInput(key: string, model: string)

  datatype PostReply =
    | Saved(status: int, message: string, apiKey: KeyView)
    | PostFailed(status: int, message: string)

  datatype GetReply =
    | Listed(status: int, apiKeys: set<KeyView>)
    | GetFailed(status: int, message: string)

  datatype DeleteReply = DeleteReply(status: int, message: string)

  const SavedMessage := "API key saved successfully"
  const IdRequiredMessage := "API key ID is required"
  const NotFoundMessage := "API key not found"
  const DeletedMessage := "API key deleted successfully"

  /** `apiKeySchema.parse(body)`: both members are non-empty strings. */
  function ParseKeyInput(body: Json): (r: Option<KeyInput>)
    ensures r.Some? <==>
      (exists k, m :: k != "" && m != "" &&
         Member(body, "key") == Some(JStr(k)) && Member(body, "model") == Some(JStr(m)))
    ensures r.Some? ==>
      Member(body, "key") == Some(JStr(r.value.key)) && Member(body, "model") == Some(JStr(r.value.model))
  {
    var key := NonEmptyText(Member(body, "key"));
    var model := NonEmptyText(Member(body, "model"));
    if key.Some? && model.Some? then Some(KeyInput(key.value, model.value)) else None
  }

  function View(k: ApiKey): KeyView
  {
    KeyView(k.id, k.model)
  }

  /** Every row is filed under its own id. */
  ghost predicate KeyedById(keys: map<string, ApiKey>)
  {
    forall id :: id in keys ==> keys[id].id == id
  }

  /**
   * `findMany({ where: { userId }, select: { id, model } })`: the views of
   * exactly the rows `u` owns.
   */
  function OwnedBy(keys: map<string, ApiKey>, u: UserId): (r: set<KeyView>)
    ensures KeyedById(keys) ==>
      forall v :: v in r <==> v.id in keys && keys[v.id].userId == u && keys[v.id].model == v.model
  {
    set id | id in keys && keys[id].userId == u :: View(keys[id])
  }

  /** Only the owner of row `id` may remove it: `id` exists and is theirs. */
  predicate MayDelete(keys: map<string, ApiKey>, u: UserId, id: string)
  {
    id in keys && keys[id].userId == u
  }

  /** Adding a row under an unused id gives its owner exactly one more key. */
  lemma {:induction false} InsertAddsOneKey(keys: map<string, ApiKey>, row: ApiKey)
    requires KeyedById(keys) && row.id !in keys
    ensures KeyedById(keys[row.id := row])
    ensures OwnedBy(keys[row.id := row], row.userId) == OwnedBy(keys, row.userId) + {View(row)}
    ensures View(row) !in OwnedBy(keys, row.userId)
    ensures |OwnedBy(keys[row.id := row], row.userId)| == |OwnedBy(keys, row.userId)| + 1
    ensures forall u :: u != row.userId ==> OwnedBy(keys[row.id := row], u) == OwnedBy(keys, u)
  {
    var after := keys[row.id := row];
    forall u ensures OwnedBy(after, u) == OwnedBy(keys, u) + (if u == row.userId then {View(row)} else {}) {
      forall v ensures v in OwnedBy(after, u) <==> v in OwnedBy(keys, u) + (if u == row.userId then {View(row)} else {}) {
        if v in OwnedBy(after, u) && v.id != row.id {
          assert v.id in keys;
        }
      }
    }
  }

  /**
   * Removing a row the caller owns takes exactly that row from the caller's
   * keys and leaves every other user's keys as they were.
   */
  lemma {:induction false} RemoveOwnKey(keys: map<string, ApiKey>, u: UserId, id: string)
    requires KeyedById(keys) && MayDelete(keys, u, id)
    ensures KeyedById(keys - {id})
    ensures OwnedBy(keys - {id}, u) == OwnedBy(keys, u) - {View(keys[id])}
    ensures forall w :: w != u ==> OwnedBy(keys - {id}, w) == OwnedBy(keys, w)
  {
    var after := keys - {id};
    forall w ensures OwnedBy(after, w) == OwnedBy(keys, w) - (if w == u then {View(keys[id])} else {}) {
      forall v ensures v in OwnedBy(after, w) <==> v in OwnedBy(keys, w) - (if w == u then {View(keys[id])} else {}) {
        if v in OwnedBy(keys, w) && v.id == id {
          assert v == View(keys[id]);
        }
      }
    }
  }

  class KeyTable {
    /** The rows, keyed by their generated id. */
    var keys: map<string, ApiKey>

    ghost predicate Valid()
      reads this
    {
      KeyedById(keys)
    }

    constructor ()
      ensures Valid() && keys == map[]
    {
      keys := map[];
    }

    /**
     * `POST`: validate the body and create a row owned by the caller under
     * the store's newly generated `freshId`; nothing is deduplicated.
     */
    method Post(session: Option<UserId>, body: Option<Json>, freshId: string) returns (r: PostReply)
      requires Valid() && freshId !in keys
      modifies this
      ensures Valid()
      ensures !Authenticated(session) ==>
        r == PostFailed(StatusUnauthorized, UnauthorizedMessage) && keys == old(keys)
      ensures Authenticated(session) && body.None? ==>
        r == PostFailed(StatusServerError, InternalErrorMessage) && keys == old(keys)
      ensures Authenticated(session) && body.Some? && ParseKeyInput(body.value).None? ==>
        r == PostFailed(StatusBadRequest, InvalidInputMessage) && keys == old(keys)
      ensures Authenticated(session) && body.Some? && ParseKeyInput(body.value).Some? ==>
        var input := ParseKeyInput(body.value).value;
        && keys == old(keys)[freshId := ApiKey(freshId, input.key, input.model, session.value)]
        && r == Saved(StatusCreated, SavedMessage, KeyView(freshId, input.model))
        && |OwnedBy(keys, session.value)| == |OwnedBy(old(keys), session.value)| + 1
    {
      if !Authenticated(session) {
        return PostFailed(StatusUnauthorized, UnauthorizedMessage);
      }
      if body.None? {
        return PostFailed(StatusServerError, InternalErrorMessage);
      }
      var input := ParseKeyInput(body.value);
      if input.None? {
        return PostFailed(StatusBadRequest, InvalidInputMessage);
      }
      var row := ApiKey(freshId, input.value.key, input.value.model, session.value);
      InsertAddsOneKey(keys, row);
      keys := keys[freshId := row];
      r := Saved(StatusCreated, SavedMessage, View(row));
    }

    /** `GET`: the caller's keys, each shown as id and model. */
    method Get(session: Option<UserId>) returns (r: GetReply)
      requires Valid()
      ensures !Authenticated(session) ==> r == GetFailed(StatusUnauthorized, UnauthorizedMessage)
      ensures Authenticated(session) ==> r.Listed? && r.status == StatusOk
      ensures Authenticated(session) ==>
        forall v :: v in r.apiKeys <==>
          v.id in keys && keys[v.id].userId == session.value && keys[v.id].model == v.model
    {
      if !Authenticated(session) {
        return GetFailed(StatusUnauthorized, UnauthorizedMessage);
      }
      r := Listed(StatusOk, OwnedBy(keys, session.value));
    }

    /**
     * `DELETE ?id=...`: a missing or empty id is refused; an id that does
     * not exist or belongs to someone else is not found; otherwise exactly
     * that row goes.
     */
    method Delete(session: Option<UserId>, id: Option<string>) returns (r: DeleteReply)
      requires Valid()
      modifies this
      ensures Valid()
      ensures !Authenticated(session) ==>
        r == DeleteReply(StatusUnauthorized, UnauthorizedMessage) && keys == old(keys)
      ensures Authenticated(session) && (id.None? || id.value == "") ==>
        r == DeleteReply(StatusBadRequest, IdRequiredMessage) && keys == old(keys)
      ensures Authenticated(session) && id.Some? && id.value != "" && !MayDelete(old(keys), session.value, id.value) ==>
        r == DeleteReply(StatusNotFound, NotFoundMessage) && keys == old(keys)
      ensures Authenticated(session) && id.Some? && id.value != "" && MayDelete(old(keys), session.value, id.value) ==>
        && r == DeleteReply(StatusOk, DeletedMessage)
        && keys == old(keys) - {id.value}
        && forall w :: w != session.value ==> OwnedBy(keys, w) == OwnedBy(old(keys), w)
      ensures r.status == StatusOk <==> keys != old(keys)
    {
      if !Authenticated(session) {
        return DeleteReply(StatusUnauthorized, UnauthorizedMessage);
      }
      if id.None? || id.value == "" {
        return DeleteReply(StatusBadRequest, IdRequiredMessage);
      }
      var target := id.value;
      if target !in keys || keys[target].userId != session.value {
        return DeleteReply(StatusNotFound, NotFoundMessage);
      }
      RemoveOwnKey(keys, session.value, target);
      keys := keys - {target};
      r := DeleteReply(StatusOk, DeletedMessage);
    }
  }
}
