/** The `/clerk-webhook` POST handler (convex/http.ts). Svix signature
    verification is an oracle: `verified` is the event `verify` returns, or
    None when it throws. The response depends on the secret, the three Svix
    headers, that outcome, the event type and whether the upsert mutation
    fails. */
module Webhook {
  import opened Prelude
  import opened Text
  import Users

  /** Request headers by (lower-case) name; a missing name is `null`. */
  datatype Request = Request(headers: map<string, string>)

  /** The part of Clerk's user payload the handler reads. */
  datatype UserData = UserData(
    id: string,
    emailAddresses: seq<string>,
    imageUrl: string,
    firstName: Option<string>,
    lastName: Option<string>)

  datatype Event = Event(eventType: string, data: UserData)

  /** What the handler produces: an HTTP response, or an exception thrown
      out of the handler. */
  datatype Outcome = Response(status: int, body: string) | Thrown(message: string)

  /** What the handler decides before it touches storage: finish with an
      outcome, or run upsertUser with these arguments. */
  datatype Step = Finish(outcome: Outcome) | Upsert(args: Users.UpsertArgs)

  const MissingSecret := Thrown("MISSING CLERK_WEBHOOK_SECRET environment variable")
  const MissingHeaders := Response(400, "Missing SVIX headers")
  const InvalidPayload := Response(400, "Invalid SVIX payload")
  const UpsertFailed := Response(500, "Failed to upsert user")
  const Processed := Response(200, "WEBHOOK Processed successfully")
  /** Reading `email_addresses[0].email_address` of an empty list. */
  const NoEmailAddress := Thrown("TypeError: Cannot read properties of undefined (reading 'email_address')")

  /** JavaScript truthiness of a string that may be null: null and "" are falsy. */
  predicate Truthy(v: Option<string>) {
    v.Some? && v.value != ""
  }

  function Header(req: Request, name: string): Option<string> {
    if name in req.headers then Some(req.headers[name]) else None
  }

  predicate HasSvixHeaders(req: Request) {
    Truthy(Header(req, "svix-id")) && Truthy(Header(req, "svix-signature"))
    && Truthy(Header(req, "svix-timestamp"))
  }

  /** Signature verification is attempted exactly when the secret is set and
      all three headers are present. */
  predicate Verifies(secret: Option<string>, req: Request) {
    Truthy(secret) && HasSvixHeaders(req)
  }

  /** How a template literal renders a possibly-null name part. */
  function TemplateText(v: Option<string>): string {
    match v
    case Some(s) => s
    case None => "null"
  }

  /** The template `${first_name} ${last_name}`, before trimming. */
  function NameTemplate(d: UserData): string {
    TemplateText(d.firstName) + " " + TemplateText(d.lastName)
  }

  /** `${first_name} ${last_name}`.trim() */
  function DisplayName(d: UserData): (r: string)
    ensures exists k: nat :: OccursAt(NameTemplate(d), r, k)
                             && AllSpace(NameTemplate(d)[..k]) && AllSpace(NameTemplate(d)[k + |r|..])
    ensures |r| > 0 ==> !IsJsSpace(r[0]) && !IsJsSpace(r[|r| - 1])
    ensures r == "" <==> AllSpace(NameTemplate(d))
  {
    Trim(NameTemplate(d))
  }

  predicate IsUserEvent(eventType: string) {
    eventType == "user.created" || eventType == "user.updated"
  }

  /** Creation implies candidate, anything else that reaches the upsert
      (i.e. user.updated) implies interviewer. */
  function ImpliedRole(eventType: string): Users.Role {
    if eventType == "user.created" then Users.Candidate else Users.Interviewer
  }

  /** The upsert arguments built from a user event with at least one email. */
  function UpsertArgsFor(evt: Event): (a: Users.UpsertArgs)
    requires |evt.data.emailAddresses| > 0
  {
    Users.UpsertArgs(evt.data.emailAddresses[0], DisplayName(evt.data), Some(evt.data.imageUrl),
                     evt.data.id, ImpliedRole(evt.eventType))
  }

  /** The handler up to the upsert call. */
  function Plan(secret: Option<string>, req: Request, verified: Option<Event>): Step {
    if !Truthy(secret) then Finish(MissingSecret)
    else if !HasSvixHeaders(req) then Finish(MissingHeaders)
    else if verified.None? then Finish(InvalidPayload)
    else
      var evt := verified.value;
      if IsUserEvent(evt.eventType) then
        if |evt.data.emailAddresses| == 0 then Finish(NoEmailAddress)
        else Upsert(UpsertArgsFor(evt))
      else Finish(Processed)
  }

  /** The whole handler: run the plan against the users table. A failing
      mutation is rolled back by the database, so the table is unchanged. */
  method HandleClerkWebhook(users: Users.UserTable, secret: Option<string>, req: Request,
                            verified: Option<Event>, upsertFails: bool) returns (out: Outcome)
    requires users.Valid()
    modifies users
    ensures users.Valid()
    ensures Plan(secret, req, verified).Finish? ==>
              out == Plan(secret, req, verified).outcome && users.rows == old(users.rows)
              && users.nextId == old(users.nextId)
    ensures Plan(secret, req, verified).Upsert? && upsertFails ==>
              out == UpsertFailed && users.rows == old(users.rows) && users.nextId == old(users.nextId)
    ensures Plan(secret, req, verified).Upsert? && !upsertFails ==>
              out == Processed
              && users.rows == Users.Upserted(old(users.rows), Plan(secret, req, verified).args, old(users.nextId))
              && users.nextId == if Users.Known(old(users.rows), Plan(secret, req, verified).args.clerkId)
                                 then old(users.nextId) else old(users.nextId) + 1
  {
    var step := Plan(secret, req, verified);
    match step
    case Finish(o) =>
      out := o;
    case Upsert(args) =>
      if upsertFails {
        out := UpsertFailed;
      } else {
        users.UpsertUser(args);
        out := Processed;
      }
  }

  /** A missing secret throws whatever the request holds. */
  lemma MissingSecretThrows(secret: Option<string>, req: Request, verified: Option<Event>)
    requires !Truthy(secret)
    ensures Plan(secret, req, verified) == Finish(MissingSecret)
  {
  }

  /** Without the secret and the three headers the signature is never
      checked: the plan does not depend on the verification outcome. */
  lemma UnverifiedIgnoresOracle(secret: Option<string>, req: Request, v1: Option<Event>, v2: Option<Event>)
    requires !Verifies(secret, req)
    ensures Plan(secret, req, v1) == Plan(secret, req, v2)
    ensures Plan(secret, req, v1).Finish?
  {
  }

  /** An absent or empty svix-id, svix-signature or svix-timestamp is a 400. */
  lemma MissingHeaderRejects(secret: Option<string>, req: Request, verified: Option<Event>)
    requires Truthy(secret) && !HasSvixHeaders(req)
    ensures Plan(secret, req, verified) == Finish(Response(400, "Missing SVIX headers"))
  {
  }

  /** A failed verification is a 400 and no mutation. */
  lemma BadSignatureRejects(secret: Option<string>, req: Request)
    requires Verifies(secret, req)
    ensures Plan(secret, req, None) == Finish(Response(400, "Invalid SVIX payload"))
  {
  }

  /** user.created and user.updated run exactly one upsert: candidate for
      creation, interviewer for update, the first email address, the trimmed
      display name, the avatar and the Clerk id. */
  lemma UserEventUpserts(secret: Option<string>, req: Request, evt: Event)
    requires Verifies(secret, req) && IsUserEvent(evt.eventType) && |evt.data.emailAddresses| > 0
    ensures var step := Plan(secret, req, Some(evt));
            step.Upsert?
            && step.args.role == (if evt.eventType == "user.created" then Users.Candidate else Users.Interviewer)
            && step.args.email == evt.data.emailAddresses[0]
            && step.args.name == Trim(TemplateText(evt.data.firstName) + " " + TemplateText(evt.data.lastName))
            && step.args.clerkId == evt.data.id
            && step.args.image == Some(evt.data.imageUrl)
  {
  }

  /** user.deleted and every other event type: 200 and no mutation. */
  lemma OtherEventsAcknowledged(secret: Option<string>, req: Request, evt: Event)
    requires Verifies(secret, req) && !IsUserEvent(evt.eventType)
    ensures Plan(secret, req, Some(evt)) == Finish(Response(200, "WEBHOOK Processed successfully"))
  {
  }

  /** A user event without any email address throws before the upsert. */
  lemma NoEmailThrows(secret: Option<string>, req: Request, evt: Event)
    requires Verifies(secret, req) && IsUserEvent(evt.eventType) && |evt.data.emailAddresses| == 0
    ensures Plan(secret, req, Some(evt)).Finish? && Plan(secret, req, Some(evt)).outcome.Thrown?
  {
  }

  /** Every response decided before storage is a 200 or a 400; the only 500
      is the one HandleClerkWebhook returns when the upsert fails. */
  lemma ResponseCodes(secret: Option<string>, req: Request, verified: Option<Event>)
    ensures var step := Plan(secret, req, verified);
            step.Finish? && step.outcome.Response? ==> step.outcome.status in {200, 400}
  {
  }

  /** With both parts present, the first not starting and the last not
      ending in whitespace, the name is exactly `first + " " + last`. */
  lemma DisplayNameJoinsParts(d: UserData)
    requires d.firstName.Some? && d.lastName.Some?
    requires |d.firstName.value| > 0 && !IsJsSpace(d.firstName.value[0])
    requires |d.lastName.value| > 0 && !IsJsSpace(d.lastName.value[|d.lastName.value| - 1])
    ensures DisplayName(d) == d.firstName.value + " " + d.lastName.value
  {
    var s := d.firstName.value + " " + d.lastName.value;
    assert s[0] == d.firstName.value[0] && s[|s| - 1] == d.lastName.value[|d.lastName.value| - 1];
    TrimUnchanged(s);
  }

  /** The name handed to upsertUser is already trimmed: trimming it again
      changes nothing. */
  lemma DisplayNameIsTrimmed(d: UserData)
    ensures Trim(DisplayName(d)) == DisplayName(d)
  {
    TrimIdempotent(NameTemplate(d));
  }

  /** Composed with upsertUser: a user.updated event for a Clerk id the
      table does not know stores role candidate, not interviewer. */
  lemma {:induction false} UpdateOfUnknownStoresCandidate(rows: seq<Users.User>, nextId: nat, secret: Option<string>,
                                                          req: Request, evt: Event)
    requires Verifies(secret, req) && evt.eventType == "user.updated" && |evt.data.emailAddresses| > 0
    requires !Users.Known(rows, evt.data.id)
    ensures var step := Plan(secret, req, Some(evt));
            step.Upsert? && step.args.role == Users.Interviewer
            && var r := Users.Upserted(rows, step.args, nextId);
               |r| == |rows| + 1 && r[|rows|].role == Users.Candidate && r[|rows|].clerkId == evt.data.id
  {
    var step := Plan(secret, req, Some(evt));
    Users.UpsertInsertsCandidate(rows, step.args, nextId);
  }
}
