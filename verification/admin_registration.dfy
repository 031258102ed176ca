/** Admin sign-up (app/api/auth/admin/route.ts): the order of its checks
    and the record it answers with. Hashing is outside the model: the
    hash of the password is an input. */
module AdminRegistration {

  import opened Wrappers
  import Bookings

  /** The JSON body; an absent field is `None`. */
  datatype Request = Request(
    name: Option<string>,
    email: Option<string>,
    password: Option<string>,
    phone: Option<string>,
    adminSecret: Option<string>)

  /** A user row as stored. */
  datatype StoredUser = StoredUser(
    id: int,
    name: string,
    email: string,
    password: string,
    phone: Option<string>,
    role: string,
    createdAt: int,
    updatedAt: int)

  /** The user record in the response: the stored row without its
      password; the type has no field to carry one. */
  datatype PublicUser = PublicUser(
    id: int,
    name: string,
    email: string,
    phone: Option<string>,
    role: string,
    createdAt: int,
    updatedAt: int)

  datatype Outcome =
    | MissingFields
    | InvalidSecret
    | UserExists
    | Created(user: PublicUser, stored: StoredUser)

  function StatusCode(o: Outcome): int {
    match o
    case MissingFields => 400
    case InvalidSecret => 403
    case UserExists => 400
    case Created(_, _) => 201
  }

  /** JavaScript truthiness of a body field. */
  predicate Present(field: Option<string>) {
    field.Some? && field.value != ""
  }

  predicate RequiredPresent(req: Request) {
    Present(req.name) && Present(req.email) && Present(req.password) && Present(req.adminSecret)
  }

  /** `adminSecret !== ADMIN_SECRET`, with an unset variable as `None`. */
  predicate SecretMatches(req: Request, configured: Option<string>) {
    configured.Some? && req.adminSecret == configured
  }

  function WithoutPassword(u: StoredUser): PublicUser {
    PublicUser(u.id, u.name, u.email, u.phone, u.role, u.createdAt, u.updatedAt)
  }

  /** POST /api/auth/admin. `configured` is the ADMIN_SECRET environment
      variable, `emails` the e-mails already registered, `hashed` the hash
      of the password, `newId` and `now` what the database assigns. */
  function Register(req: Request, configured: Option<string>, emails: seq<string>,
                    hashed: string, newId: int, now: int): (o: Outcome)
    ensures !RequiredPresent(req) <==> o == MissingFields
    ensures o == InvalidSecret <==> RequiredPresent(req) && !SecretMatches(req, configured)
    ensures o == UserExists <==>
              RequiredPresent(req) && SecretMatches(req, configured) && req.email.value in emails
    ensures o.Created? ==>
              && o.stored.role == Bookings.ADMIN_ROLE
              && o.stored.name == req.name.value
              && o.stored.email == req.email.value
              && o.stored.password == hashed
              && o.stored.phone == req.phone
              && o.user == WithoutPassword(o.stored)
  {
    if !RequiredPresent(req) then MissingFields
    else if !SecretMatches(req, configured) then InvalidSecret
    else if req.email.value in emails then UserExists
    else
      var stored := StoredUser(newId, req.name.value, req.email.value, hashed, req.phone,
                               Bookings.ADMIN_ROLE, now, now);
      Created(WithoutPassword(stored), stored)
  }

  /** The answer codes in order: 400 for missing fields before anything
      else, 403 before the e-mail lookup, and 201 only past all three. */
  lemma CheckOrder(req: Request, configured: Option<string>, emails: seq<string>,
                   hashed: string, newId: int, now: int)
    ensures var o := Register(req, configured, emails, hashed, newId, now);
            && (!RequiredPresent(req) ==> StatusCode(o) == 400 && o == MissingFields)
            && (RequiredPresent(req) && !SecretMatches(req, configured) ==> StatusCode(o) == 403)
            && (StatusCode(o) == 201 <==>
                  RequiredPresent(req) && SecretMatches(req, configured) && req.email.value !in emails)
  {
  }

  /** The phone number is optional: a request differing only in its phone
      gets the same kind of answer. */
  lemma PhoneIsOptional(req: Request, phone: Option<string>, configured: Option<string>,
                        emails: seq<string>, hashed: string, newId: int, now: int)
    ensures StatusCode(Register(req, configured, emails, hashed, newId, now)) ==
            StatusCode(Register(req.(phone := phone), configured, emails, hashed, newId, now))
  {
  }

  /** Without the environment variable no request gets past the secret
      check: every answer is 400 or 403. */
  lemma UnsetSecretRejectsAll(req: Request, emails: seq<string>, hashed: string, newId: int, now: int)
    ensures var o := Register(req, None, emails, hashed, newId, now);
            o == MissingFields || o == InvalidSecret
  {
  }

  /** The response record carries every stored field except the password,
      which is recovered only by adding it back. */
  lemma ResponseIsStoredMinusPassword(u: StoredUser)
    ensures var p := WithoutPassword(u);
            StoredUser(p.id, p.name, p.email, u.password, p.phone, p.role, p.createdAt, p.updatedAt) == u
  {
  }
}
