/**
 * The bulk ticket publisher of `app/api/jira-tickets/route.ts`: validate a
 * list of draft tickets, turn each into a Jira create-issue payload, send
 * each one, and report one result per ticket, in input order, with an
 * overall 200 or 207 (Multi-Status, section 11.1 of RFC 4918).
 *
 * The calls to Jira are not made here: `send(i, payload)` is what the
 * i-th create-issue call came back with.
 */
module JiraTickets {
  import opened Common
  import opened Json
  import JiraCredentials

  datatype IssueType = Task | Story | Bug
  datatype Priority = Low | Medium | High

  /** A draft ticket that passed `ticketSchema`. */
  datatype Ticket = Ticket(
    title: string,
    description: string,
    kind: IssueType,
    priority: Priority,
    estimatedPoints: Option<int>)

  /** What the schema guarantees beyond the types: both texts are non-empty. */
  predicate WellFormed(t: Ticket)
  {
    t.title != "" && t.description != ""
  }

  function IssueTypeLiteral(k: IssueType): string
  {
    match k
    case Task => "task"
    case Story => "story"
    case Bug => "bug"
  }

  function PriorityLiteral(p: Priority): string
  {
    match p
    case Low => "low"
    case Medium => "medium"
    case High => "high"
  }

  // ---------------------------------------------------------------------------
  // Validation: ticketSchema and createTicketsSchema
  // ---------------------------------------------------------------------------

  /** `z.enum(['task', 'story', 'bug'])`: accepts exactly the three literals. */
  function ParseIssueType(v: Option<Json>): (r: Option<IssueType>)
    ensures r.Some? ==> v == Some(JStr(IssueTypeLiteral(r.value)))
    ensures forall k :: v == Some(JStr(IssueTypeLiteral(k))) ==> r == Some(k)
  {
    match v
    case Some(JStr(s)) =>
      if s == "task" then Some(Task)
      else if s == "story" then Some(Story)
      else if s == "bug" then Some(Bug)
      else None
    case _ => None
  }

  /** `z.enum(['low', 'medium', 'high'])`: accepts exactly the three literals. */
  function ParsePriority(v: Option<Json>): (r: Option<Priority>)
    ensures r.Some? ==> v == Some(JStr(PriorityLiteral(r.value)))
    ensures forall p :: v == Some(JStr(PriorityLiteral(p))) ==> r == Some(p)
  {
    match v
    case Some(JStr(s)) =>
      if s == "low" then Some(Low)
      else if s == "medium" then Some(Medium)
      else if s == "high" then Some(High)
      else None
    case _ => None
  }

  /** How `estimatedPoints` appears in a body: absent, or a number. */
  function EncodePoints(points: Option<int>): Option<Json>
  {
    match points
    case None => None
    case Some(n) => Some(JNum(n))
  }

  /**
   * `z.number().optional()`: `Some(points)` when the member is absent or a
   * number, `None` when the schema rejects it (null included).
   */
  function ParsePoints(v: Option<Json>): (r: Option<Option<int>>)
    ensures r.Some? <==> v.None? || v.value.JNum?
    ensures r.Some? ==> EncodePoints(r.value) == v
  {
    match v
    case None => Some(None)
    case Some(JNum(n)) => Some(Some(n))
    case _ => None
  }

  /** `ticketSchema.parse(v)`; members other than the five are ignored. */
  function ParseTicket(v: Json): Option<Ticket>
  {
    var title := NonEmptyText(Member(v, "title"));
    var description := NonEmptyText(Member(v, "description"));
    var kind := ParseIssueType(Member(v, "type"));
    var priority := ParsePriority(Member(v, "priority"));
    var points := ParsePoints(Member(v, "estimatedPoints"));
    if title.Some? && description.Some? && kind.Some? && priority.Some? && points.Some?
    then Some(Ticket(title.value, description.value, kind.value, priority.value, points.value))
    else None
  }

  /** A value carries ticket `t` when its five members are `t`'s, encoded. */
  predicate Carries(v: Json, t: Ticket)
  {
    && Member(v, "title") == Some(JStr(t.title))
    && Member(v, "description") == Some(JStr(t.description))
    && Member(v, "type") == Some(JStr(IssueTypeLiteral(t.kind)))
    && Member(v, "priority") == Some(JStr(PriorityLiteral(t.priority)))
    && Member(v, "estimatedPoints") == EncodePoints(t.estimatedPoints)
  }

  /**
   * A value validates as `t` exactly when it carries `t` and `t` has a
   * non-empty title and description.
   */
  lemma ParseTicketExactly(v: Json, t: Ticket)
    ensures ParseTicket(v) == Some(t) <==> Carries(v, t) && WellFormed(t)
  {
  }

  /** The members a client sends for a ticket. */
  function TicketFields(t: Ticket): seq<(string, Json)>
  {
    [("title", JStr(t.title)),
     ("description", JStr(t.description)),
     ("type", JStr(IssueTypeLiteral(t.kind))),
     ("priority", JStr(PriorityLiteral(t.priority)))]
    + (match t.estimatedPoints
       case None => []
       case Some(n) => [("estimatedPoints", JNum(n))])
  }

  /** Serialising a well-formed ticket and validating it gives the ticket back. */
  lemma {:induction false} TicketRoundTrip(t: Ticket)
    requires WellFormed(t)
    ensures ParseTicket(JObj(TicketFields(t))) == Some(t)
  {
    var fs := TicketFields(t);
    assert Carries(JObj(fs), t) by {
      assert DistinctKeys(fs);
      LookupDistinct(fs, 0);
      LookupDistinct(fs, 1);
      LookupDistinct(fs, 2);
      LookupDistinct(fs, 3);
      if t.estimatedPoints.Some? {
        LookupDistinct(fs, 4);
      } else {
        assert forall i :: 0 <= i < |fs| ==> fs[i].0 != "estimatedPoints";
      }
    }
    ParseTicketExactly(JObj(fs), t);
  }

  /**
   * `z.array(schema)`: every element must validate, and the array's value
   * is the elements' values in order.
   */
  function ParseEach<T>(items: seq<Json>, parse: Json -> Option<T>): Option<seq<T>>
  {
    if |items| == 0 then Some([])
    else match parse(items[0])
      case None => None
      case Some(t) =>
        match ParseEach(items[1..], parse)
        case None => None
        case Some(ts) => Some([t] + ts)
  }

  /**
   * The array validates exactly when every element does, and then its
   * value lists the elements' values, in order.
   */
  lemma {:induction false} ParseEachSpec<T>(items: seq<Json>, parse: Json -> Option<T>)
    ensures ParseEach(items, parse).Some? <==> forall i :: 0 <= i < |items| ==> parse(items[i]).Some?
    ensures ParseEach(items, parse).Some? ==>
      |ParseEach(items, parse).value| == |items| &&
      forall i :: 0 <= i < |items| ==> parse(items[i]) == Some(ParseEach(items, parse).value[i])
  {
    if |items| > 0 {
      ParseEachSpec(items[1..], parse);
      assert forall i :: 1 <= i < |items| ==> items[i] == items[1..][i - 1];
    }
  }

  /** `createTicketsSchema.parse(body)`: an object whose `tickets` is an array. */
  function ParseTickets(body: Json): Option<seq<Ticket>>
  {
    match Member(body, "tickets")
    case Some(JArr(items)) => ParseEach(items, ParseTicket)
    case _ => None
  }

  // ---------------------------------------------------------------------------
  // The create-issue payload
  // ---------------------------------------------------------------------------

  function UpperAscii(c: char): char
  {
    if 'a' <= c <= 'z' then (c as int - 32) as char else c
  }

  /** `s.charAt(0).toUpperCase() + s.slice(1)`, for ASCII letters. */
  function Capitalize(s: string): (r: string)
    ensures |r| == |s|
    ensures s != "" ==> r[0] == UpperAscii(s[0]) && r[1..] == s[1..]
  {
    if s == "" then "" else [UpperAscii(s[0])] + s[1..]
  }

  /** The Jira issue-type name: task, story, bug become Task, Story, Bug. */
  function IssueTypeName(k: IssueType): (r: string)
    ensures r == match k case Task => "Task" case Story => "Story" case Bug => "Bug"
  {
    Capitalize(IssueTypeLiteral(k))
  }

  /** Reading a Jira issue-type name back. */
  function IssueTypeOfName(name: string): Option<IssueType>
  {
    if name == "Task" then Some(Task)
    else if name == "Story" then Some(Story)
    else if name == "Bug" then Some(Bug)
    else None
  }

  /** Every draft type names a distinct Jira issue type. */
  lemma IssueTypeNameRoundTrip(k: IssueType)
    ensures IssueTypeOfName(IssueTypeName(k)) == Some(k)
  {
  }

  /** The `fields` of a create-issue request. No priority is ever sent. */
  datatype IssuePayload = IssuePayload(
    projectKey: string,
    summary: string,
    description: string,
    issueType: string,
    storyPoints: Option<int>)

  /**
   * `...(ticket.estimatedPoints && {customfield_10016: ...})`: the spread
   * adds the field only for a truthy number.
   */
  function StoryPoints(points: Option<int>): Option<int>
  {
    if points.Some? && Truthy(JNum(points.value)) then points else None
  }

  function BuildPayload(cred: JiraCredentials.JiraCredential, t: Ticket): (p: IssuePayload)
    ensures p.projectKey == cred.projectKey
    ensures p.summary == t.title && p.description == t.description
    ensures IssueTypeOfName(p.issueType) == Some(t.kind)
    ensures p.storyPoints.Some? <==> t.estimatedPoints.Some? && t.estimatedPoints.value != 0
    ensures p.storyPoints.Some? ==> p.storyPoints == t.estimatedPoints
  {
    IssuePayload(cred.projectKey, t.title, t.description, IssueTypeName(t.kind),
                 StoryPoints(t.estimatedPoints))
  }

  /** The members of `fields` in the JSON request body. */
  function PayloadFields(p: IssuePayload): seq<(string, Json)>
  {
    [("project", JObj([("key", JStr(p.projectKey))])),
     ("summary", JStr(p.summary)),
     ("description", JStr(p.description)),
     ("issuetype", JObj([("name", JStr(p.issueType))]))]
    + (match p.storyPoints
       case None => []
       case Some(n) => [("customfield_10016", JNum(n))])
  }

  /** The whole JSON request body. */
  function PayloadJson(p: IssuePayload): Json
  {
    JObj([("fields", JObj(PayloadFields(p)))])
  }

  /** The members of `fields` that carry the summary, the story points and a priority. */
  lemma {:induction false} PayloadFieldsLookup(p: IssuePayload)
    ensures Lookup(PayloadFields(p), "summary") == Some(JStr(p.summary))
    ensures Lookup(PayloadFields(p), "priority") == None
    ensures Lookup(PayloadFields(p), "customfield_10016") ==
              (if p.storyPoints.Some? then Some(JNum(p.storyPoints.value)) else None)
  {
    var fs := PayloadFields(p);
    LookupLast(fs, 1);
    if p.storyPoints.Some? {
      LookupLast(fs, 4);
    } else {
      assert forall i :: 0 <= i < |fs| ==> fs[i].0 != "customfield_10016";
    }
    assert forall i :: 0 <= i < |fs| ==> fs[i].0 != "priority";
  }

  /**
   * On the wire, `customfield_10016` is present exactly when the estimate
   * is a non-zero number, and then carries it; `priority` is never sent.
   */
  lemma {:induction false} StoryPointsOnTheWire(cred: JiraCredentials.JiraCredential, t: Ticket)
    ensures Member(PayloadJson(BuildPayload(cred, t)), "fields") == Some(JObj(PayloadFields(BuildPayload(cred, t))))
    ensures Lookup(PayloadFields(BuildPayload(cred, t)), "customfield_10016") ==
              (if t.estimatedPoints.Some? && t.estimatedPoints.value != 0
               then Some(JNum(t.estimatedPoints.value)) else None)
    ensures Lookup(PayloadFields(BuildPayload(cred, t)), "priority") == None
    ensures Lookup(PayloadFields(BuildPayload(cred, t)), "summary") == Some(JStr(t.title))
  {
    var p := BuildPayload(cred, t);
    assert Member(PayloadJson(p), "fields") == Some(JObj(PayloadFields(p)));
    PayloadFieldsLookup(p);
  }

  // ---------------------------------------------------------------------------
  // One create-issue call and its result
  // ---------------------------------------------------------------------------

  /** A response body: JSON, or text `JSON.parse` rejects with `syntaxError`. */
  datatype Body = Parsed(json: Json) | Unparseable(syntaxError: string)

  /** How a call ended: it threw, or Jira answered. */
  datatype Exchange = Threw(message: string) | Replied(ok: bool, body: Body)

  datatype PublishResult =
    | Created(id: Option<Json>, key: Option<Json>, title: string, priority: Priority)
    | Failed(title: string, error: string)

  const DefaultErrorMessage := "Failed to create Jira ticket"

  /** What reading `result.id` of a null result throws. */
  const NullResultMessage := "Cannot read properties of null (reading 'id')"

  /** Candidate `i` is the first truthy one. */
  predicate FirstTruthyAt(candidates: seq<Option<Json>>, i: int)
    requires 0 <= i < |candidates|
  {
    PresentAndTruthy(candidates[i]) && forall j :: 0 <= j < i ==> !PresentAndTruthy(candidates[j])
  }

  /** `a || b || ... || fallback`, converted by `new Error(...)` to text. */
  function FirstTruthy(candidates: seq<Option<Json>>, fallback: string): (r: string)
    ensures (forall i :: 0 <= i < |candidates| ==> !PresentAndTruthy(candidates[i])) ==> r == fallback
    ensures forall i :: 0 <= i < |candidates| && FirstTruthyAt(candidates, i) ==> r == Render(candidates[i].value)
  {
    if |candidates| == 0 then fallback
    else if PresentAndTruthy(candidates[0]) then Render(candidates[0].value)
    else
      var rest := candidates[1..];
      assert forall i :: 1 <= i < |candidates| ==> candidates[i] == rest[i - 1];
      assert forall i :: 1 <= i < |candidates| && FirstTruthyAt(candidates, i) ==> FirstTruthyAt(rest, i - 1);
      FirstTruthy(rest, fallback)
  }

  /**
   * The three places a Jira error body may carry a message:
   * `errorMessages?.[0]`, `errors?.[Object.keys(errors)[0]]`, `message`.
   */
  function ErrorCandidates(j: Json): seq<Option<Json>>
  {
    var messages := Member(j, "errorMessages");
    var errors := Member(j, "errors");
    [if messages.Some? && messages.value != JNull then Index0(messages.value) else None,
     if errors.Some? && errors.value != JNull then FirstKeyValue(errors.value) else None,
     Member(j, "message")]
  }

  /**
   * The message of a failed create-issue call. An unparseable body, or
   * `null` (reading a member of it throws inside the inner try), leaves the
   * default message; otherwise the first truthy candidate gives it, and
   * with none the default stays.
   */
  function ErrorMessage(b: Body): (r: string)
    ensures b.Unparseable? || b == Parsed(JNull) ==> r == DefaultErrorMessage
    ensures b.Parsed? && b.json != JNull &&
            (forall i :: 0 <= i < 3 ==> !PresentAndTruthy(ErrorCandidates(b.json)[i])) ==>
              r == DefaultErrorMessage
    ensures b.Parsed? && b.json != JNull ==>
      forall i :: 0 <= i < 3 && FirstTruthyAt(ErrorCandidates(b.json), i) ==>
        r == Render(ErrorCandidates(b.json)[i].value)
  {
    match b
    case Unparseable(_) => DefaultErrorMessage
    case Parsed(j) =>
      if j == JNull then DefaultErrorMessage
      else FirstTruthy(ErrorCandidates(j), DefaultErrorMessage)
  }

  /** Whatever else the body holds, a non-empty first error message is the one reported. */
  lemma JiraErrorMessagesFirst(fields: seq<(string, Json)>, ms: seq<Json>, s: string)
    requires Lookup(fields, "errorMessages") == Some(JArr(ms))
    requires |ms| > 0 && ms[0] == JStr(s) && s != ""
    ensures ErrorMessage(Parsed(JObj(fields))) == s
  {
    var c := ErrorCandidates(JObj(fields));
    assert c[0] == Some(JStr(s));
    assert FirstTruthyAt(c, 0);
  }

  /**
   * With no error messages (absent, null or empty), the value under the
   * first key of `errors` is reported when it is a non-empty string and
   * that key is not given again later in `errors`.
   */
  lemma JiraFieldErrorNext(fields: seq<(string, Json)>, es: seq<(string, Json)>, key: string, s: string)
    requires Lookup(fields, "errorMessages") == None || Lookup(fields, "errorMessages") == Some(JNull)
             || Lookup(fields, "errorMessages") == Some(JArr([]))
    requires Lookup(fields, "errors") == Some(JObj(es))
    requires |es| > 0 && es[0] == (key, JStr(s)) && s != ""
    requires forall j :: 0 < j < |es| ==> es[j].0 != key
    ensures ErrorMessage(Parsed(JObj(fields))) == s
  {
    LookupLast(es, 0);
    var c := ErrorCandidates(JObj(fields));
    assert c[0] == None;
    assert c[1] == Some(JStr(s));
    assert FirstTruthyAt(c, 1);
  }

  /**
   * A body whose error messages and field errors are absent, null or empty
   * and whose `message` is absent or falsy reports the default message.
   */
  lemma JiraEmptyErrorDefault(fields: seq<(string, Json)>)
    requires Lookup(fields, "errorMessages") == None || Lookup(fields, "errorMessages") == Some(JNull)
             || Lookup(fields, "errorMessages") == Some(JArr([]))
    requires Lookup(fields, "errors") == None || Lookup(fields, "errors") == Some(JNull)
             || Lookup(fields, "errors") == Some(JObj([]))
    requires !PresentAndTruthy(Lookup(fields, "message"))
    ensures ErrorMessage(Parsed(JObj(fields))) == DefaultErrorMessage
  {
    var c := ErrorCandidates(JObj(fields));
    assert c[0] == None;
    assert c[1] == None;
  }

  /**
   * The message of a failure is never empty unless the value it was taken
   * from is an array (an array converts to the join of its elements).
   */
  lemma ErrorMessageNonEmpty(b: Body)
    requires b.Parsed? && b.json != JNull ==>
      forall i :: 0 <= i < 3 && FirstTruthyAt(ErrorCandidates(b.json), i) ==>
        !ErrorCandidates(b.json)[i].value.JArr?
    ensures ErrorMessage(b) != ""
  {
    if b.Parsed? && b.json != JNull {
      var c := ErrorCandidates(b.json);
      if PresentAndTruthy(c[0]) {
        RenderNonEmpty(c[0].value);
      } else if PresentAndTruthy(c[1]) {
        assert FirstTruthyAt(c, 1);
        RenderNonEmpty(c[1].value);
      } else if PresentAndTruthy(c[2]) {
        RenderNonEmpty(c[2].value);
      }
    }
  }

  /** The handler's per-ticket closure, given how its call ended. */
  function PublishOne(t: Ticket, x: Exchange): (r: PublishResult)
    ensures r.title == t.title
    ensures r.Created? <==> x.Replied? && x.ok && x.body.Parsed? && x.body.json != JNull
    ensures r.Created? ==> r.priority == t.priority &&
                           r.id == Member(x.body.json, "id") && r.key == Member(x.body.json, "key")
    ensures x.Replied? && !x.ok ==> r.error == ErrorMessage(x.body)
    ensures x.Replied? && x.ok && x.body.Unparseable? ==> r.error == x.body.syntaxError
    ensures x == Replied(true, Parsed(JNull)) ==> r.error == NullResultMessage
    ensures x.Threw? ==> r.error == x.message
  {
    match x
    case Threw(message) => Failed(t.title, message)
    case Replied(ok, body) =>
      if !ok then Failed(t.title, ErrorMessage(body))
      else match body
        case Unparseable(e) => Failed(t.title, e)
        case Parsed(j) =>
          if j == JNull then Failed(t.title, NullResultMessage)
          else Created(Member(j, "id"), Member(j, "key"), t.title, t.priority)
  }

  /**
   * `tickets.map(...)` under `Promise.all`: one result per ticket, in input
   * order; the i-th result depends only on the i-th ticket and its call.
   */
  function PublishAll(cred: JiraCredentials.JiraCredential, ts: seq<Ticket>,
                      send: (nat, IssuePayload) -> Exchange): (rs: seq<PublishResult>)
    ensures |rs| == |ts|
    ensures forall i :: 0 <= i < |ts| ==> rs[i] == PublishOne(ts[i], send(i, BuildPayload(cred, ts[i])))
  {
    seq(|ts|, i requires 0 <= i < |ts| => PublishOne(ts[i], send(i, BuildPayload(cred, ts[i]))))
  }

  /**
   * A failing call touches only its own entry: two runs whose calls agree
   * on ticket `i` report the same result for it.
   */
  lemma PublishIsolation(cred: JiraCredentials.JiraCredential, ts: seq<Ticket>,
                         send1: (nat, IssuePayload) -> Exchange, send2: (nat, IssuePayload) -> Exchange, i: nat)
    requires i < |ts|
    requires send1(i, BuildPayload(cred, ts[i])) == send2(i, BuildPayload(cred, ts[i]))
    ensures PublishAll(cred, ts, send1)[i] == PublishAll(cred, ts, send2)[i]
  {
  }

  /** `createdTickets.filter(ticket => ticket.status === 'failed')`. */
  function FailedEntries(rs: seq<PublishResult>): seq<PublishResult>
  {
    if |rs| == 0 then []
    else (if rs[0].Failed? then [rs[0]] else []) + FailedEntries(rs[1..])
  }

  /** The filter is empty exactly when every entry was created. */
  lemma {:induction false} FailedEntriesSpec(rs: seq<PublishResult>)
    ensures |FailedEntries(rs)| == 0 <==> forall i :: 0 <= i < |rs| ==> rs[i].Created?
  {
    if |rs| > 0 {
      FailedEntriesSpec(rs[1..]);
      assert forall i :: 1 <= i < |rs| ==> rs[i] == rs[1..][i - 1];
    }
  }

  // ---------------------------------------------------------------------------
  // The POST handler
  // ---------------------------------------------------------------------------

  /** The JSON answer: a status, a message and, when tickets were sent, every result. */
  datatype PublishReply = PublishReply(status: int, message: string, results: Option<seq<PublishResult>>)

  const SomeFailedMessage := "Some tickets failed to create"
  const AllCreatedMessage := "All tickets created successfully"
  const PublishFailedMessage := "Failed to create Jira tickets"

  /**
   * `POST`: check the session, then the stored credential (before reading
   * the body), then the body, then publish every ticket. `creds` is the
   * credential store, keyed by user; `body` is `None` when `req.json()`
   * throws.
   */
  function PublishTickets(session: Option<UserId>, creds: map<UserId, JiraCredentials.JiraCredential>,
                          body: Option<Json>, send: (nat, IssuePayload) -> Exchange): (r: PublishReply)
    ensures !Authenticated(session) ==> r == PublishReply(StatusUnauthorized, UnauthorizedMessage, None)
    ensures Authenticated(session) && session.value !in creds ==>
      r == PublishReply(StatusBadRequest, CredentialsMissingMessage, None)
    ensures Authenticated(session) && session.value in creds && body.Some? && ParseTickets(body.value).None? ==>
      r == PublishReply(StatusBadRequest, InvalidInputMessage, None)
    ensures Authenticated(session) && session.value in creds && body.None? ==>
      r == PublishReply(StatusServerError, PublishFailedMessage, None)
  {
    if !Authenticated(session) then PublishReply(StatusUnauthorized, UnauthorizedMessage, None)
    else if session.value !in creds then PublishReply(StatusBadRequest, CredentialsMissingMessage, None)
    else if body.None? then PublishReply(StatusServerError, PublishFailedMessage, None)
    else match ParseTickets(body.value)
      case None => PublishReply(StatusBadRequest, InvalidInputMessage, None)
      case Some(ts) =>
        var results := PublishAll(creds[session.value], ts, send);
        if |FailedEntries(results)| > 0
        then PublishReply(StatusMultiStatus, SomeFailedMessage, Some(results))
        else PublishReply(StatusOk, AllCreatedMessage, Some(results))
  }

  /**
   * For a valid request: N tickets give N results in order, and the answer
   * is 207 exactly when some entry failed, 200 exactly when all were
   * created; both carry the full list.
   */
  lemma {:induction false} PublishOutcome(session: Option<UserId>, creds: map<UserId, JiraCredentials.JiraCredential>,
                                          body: Json, send: (nat, IssuePayload) -> Exchange, ts: seq<Ticket>)
    requires Authenticated(session) && session.value in creds
    requires ParseTickets(body) == Some(ts)
    ensures var r := PublishTickets(session, creds, Some(body), send);
      && r.results == Some(PublishAll(creds[session.value], ts, send))
      && |r.results.value| == |ts|
      && (r.status == StatusMultiStatus <==> exists i :: 0 <= i < |ts| && r.results.value[i].Failed?)
      && (r.status == StatusOk <==> forall i :: 0 <= i < |ts| ==> r.results.value[i].Created?)
      && (r.status == StatusMultiStatus || r.status == StatusOk)
      && r.message == (if r.status == StatusMultiStatus then SomeFailedMessage else AllCreatedMessage)
  {
    FailedEntriesSpec(PublishAll(creds[session.value], ts, send));
  }

  /** With no stored credential, neither the body nor any call affects the answer. */
  lemma CredentialCheckedFirst(session: Option<UserId>, creds: map<UserId, JiraCredentials.JiraCredential>,
                               body1: Option<Json>, body2: Option<Json>,
                               send1: (nat, IssuePayload) -> Exchange, send2: (nat, IssuePayload) -> Exchange)
    requires Authenticated(session) && session.value !in creds
    ensures PublishTickets(session, creds, body1, send1) == PublishTickets(session, creds, body2, send2)
  {
  }

  /** Jira's field error for a create-issue call naming a project it does not know. */
  const InvalidProjectMessage := "valid project is required"

  /** Jira's answer to that call: no general messages, one field error. */
  const InvalidProjectAnswer: Json :=
    JObj([("errorMessages", JArr([])), ("errors", JObj([("project", JStr(InvalidProjectMessage))]))])

  /** That answer reports its one field error. */
  lemma InvalidProjectReported()
    ensures ErrorMessage(Parsed(InvalidProjectAnswer)) == InvalidProjectMessage
  {
    var fs := InvalidProjectAnswer.fields;
    LookupDistinct(fs, 0);
    LookupDistinct(fs, 1);
    JiraFieldErrorNext(fs, [("project", JStr(InvalidProjectMessage))], "project", InvalidProjectMessage);
  }

  /**
   * Three tickets where Jira rejects the second: three results, the first
   * and third created, the second failed with Jira's message, and the
   * answer is 207.
   */
  lemma {:induction false} SecondOfThreeRejected(session: Option<UserId>, creds: map<UserId, JiraCredentials.JiraCredential>,
                                                 items: seq<Json>, send: (nat, IssuePayload) -> Exchange)
    requires Authenticated(session) && session.value in creds
    requires |items| == 3 && forall i :: 0 <= i < 3 ==> ParseTicket(items[i]).Some?
    requires forall p :: send(0, p).Replied? && send(0, p).ok && send(0, p).body == Parsed(JObj([]))
    requires forall p :: send(2, p).Replied? && send(2, p).ok && send(2, p).body == Parsed(JObj([]))
    requires forall p :: send(1, p) == Replied(false, Parsed(InvalidProjectAnswer))
    ensures var r := PublishTickets(session, creds, Some(JObj([("tickets", JArr(items))])), send);
      && r.status == StatusMultiStatus && r.message == SomeFailedMessage
      && r.results.Some? && |r.results.value| == 3
      && r.results.value[0].Created? && r.results.value[1].Failed? && r.results.value[2].Created?
      && r.results.value[1].title == ParseTicket(items[1]).value.title
      && r.results.value[1].error == InvalidProjectMessage
  {
    var body := JObj([("tickets", JArr(items))]);
    assert Member(body, "tickets") == Some(JArr(items));
    ParseEachSpec(items, ParseTicket);
    var ts := ParseEach(items, ParseTicket).value;
    PublishOutcome(session, creds, body, send, ts);
    var cred := creds[session.value];
    var rs := PublishAll(cred, ts, send);
    assert rs[1] == PublishOne(ts[1], Replied(false, Parsed(InvalidProjectAnswer)));
    InvalidProjectReported();
    assert rs[1].error == InvalidProjectMessage;
  }
}
