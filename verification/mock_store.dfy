/**
 * The in-memory stand-in for the backend (services/mockSupabase.ts): the
 * signed-in user, whose credit counters are updated in place, and the
 * append-only lists of consultation requests and contact submissions. The
 * simulated delays are left out; the random id and the current time of a new
 * record are parameters.
 */
module MockStore {
  import opened Wrappers
  import opened Text

  datatype Role = User | Admin

  /** The signed-in user's profile. The store hands out the object itself, so
      every holder sees the counters change. */
  class UserProfile {
    const id: string
    const email: string
    const fullName: string
    const role: Role
    var creditsCv: int
    var creditsChat: int

    constructor (id: string, email: string, fullName: string, role: Role, creditsCv: int, creditsChat: int)
      ensures this.id == id && this.email == email && this.fullName == fullName && this.role == role
      ensures this.creditsCv == creditsCv && this.creditsChat == creditsChat
    {
      this.id, this.email, this.fullName, this.role := id, email, fullName, role;
      this.creditsCv, this.creditsChat := creditsCv, creditsChat;
    }
  }

  datatype ConsultationStatus = Pending | Reviewed | Closed

  datatype ConsultationRequest = ConsultationRequest(
    id: string, userId: string, email: Option<string>, subject: string,
    message: string, status: ConsultationStatus, date: string)

  /** A consultation request as the caller sends it, without id and date. */
  datatype ConsultationInput = ConsultationInput(
    userId: string, email: Option<string>, subject: string, message: string, status: ConsultationStatus)

  datatype ContactSubmission = ContactSubmission(id: string, email: string, subject: string, message: string, date: string)

  /** A contact submission as the caller sends it, without id and date. */
  datatype ContactInput = ContactInput(email: string, subject: string, message: string)

  datatype CreditKind = Chat | Cv

  /** The one consultation the store starts with. */
  const SeedConsultation: ConsultationRequest :=
    ConsultationRequest("1", "user-123", Some("demo@growthnexus.com"), "Market Entry Strategy",
                        "Need help entering UAE market.", Pending, "2023-10-25")

  /** The request with its id and date: `{...req, id, date}`. */
  function NewConsultation(req: ConsultationInput, id: string, date: string): (r: ConsultationRequest)
    ensures r.id == id && r.date == date
    ensures (r.userId, r.email, r.subject, r.message, r.status) == (req.userId, req.email, req.subject, req.message, req.status)
  {
    ConsultationRequest(id, req.userId, req.email, req.subject, req.message, req.status, date)
  }

  /** The submission with its id and date: `{...req, id, date}`. */
  function NewContact(req: ContactInput, id: string, date: string): (r: ContactSubmission)
    ensures r.id == id && r.date == date
    ensures (r.email, r.subject, r.message) == (req.email, req.subject, req.message)
  {
    ContactSubmission(id, req.email, req.subject, req.message, date)
  }

  class Store {
    var currentUser: UserProfile?
    var consultations: seq<ConsultationRequest>
    var contactSubmissions: seq<ContactSubmission>

    /** Signed out, one seeded consultation, no contact submissions. */
    constructor ()
      ensures currentUser == null
      ensures consultations == [SeedConsultation] && contactSubmissions == []
    {
      currentUser := null;
      consultations := [SeedConsultation];
      contactSubmissions := [];
    }

    /** `auth.getUser`: the signed-in profile itself, or null. */
    method GetUser() returns (user: UserProfile?)
      ensures user == currentUser
    {
      user := currentUser;
    }

    /** `auth.signIn(role)`: a new profile with the demo identity and the
        starting credits of the role, 999 of each for an admin. */
    method SignIn(role: Role) returns (user: UserProfile)
      modifies this`currentUser
      ensures fresh(user) && currentUser == user && user.role == role
      ensures role == Admin ==>
        user.id == "admin-123" && user.email == "admin@growthnexus.com" && user.fullName == "Admin User"
        && user.creditsCv == 999 && user.creditsChat == 999
      ensures role == User ==>
        user.id == "user-123" && user.email == "demo@growthnexus.com" && user.fullName == "Alex Jordan"
        && user.creditsCv == 3 && user.creditsChat == 50
    {
      var admin := role == Admin;
      user := new UserProfile(
        if admin then "admin-123" else "user-123",
        if admin then "admin@growthnexus.com" else "demo@growthnexus.com",
        if admin then "Admin User" else "Alex Jordan",
        role,
        if admin then 999 else 3,
        if admin then 999 else 50);
      currentUser := user;
    }

    /** `auth.signOut`. */
    method SignOut() returns (done: bool)
      modifies this`currentUser
      ensures currentUser == null && done
    {
      currentUser := null;
      done := true;
    }

    /** `db.getConsultations`: a copy of the list; the caller's list is a value
        and cannot change the store's. */
    method GetConsultations() returns (list: seq<ConsultationRequest>)
      ensures list == consultations
    {
      list := consultations;
    }

    /** `db.createConsultation`: one record appended, the earlier ones kept. */
    method CreateConsultation(req: ConsultationInput, id: string, nowIso: string) returns (record: ConsultationRequest)
      modifies this`consultations
      ensures record == NewConsultation(req, id, DatePart(nowIso))
      ensures consultations == old(consultations) + [record]
    {
      record := NewConsultation(req, id, DatePart(nowIso));
      consultations := consultations + [record];
    }

    /** `db.submitContact`: one record appended, the earlier ones kept. */
    method SubmitContact(req: ContactInput, id: string, nowIso: string) returns (record: ContactSubmission)
      modifies this`contactSubmissions
      ensures record == NewContact(req, id, DatePart(nowIso))
      ensures contactSubmissions == old(contactSubmissions) + [record]
    {
      record := NewContact(req, id, DatePart(nowIso));
      contactSubmissions := contactSubmissions + [record];
    }

    /** `db.updateCredits(type, amount)`: adds `amount` (of either sign, with
        no lower bound) to the named counter of the signed-in user; without a
        user nothing changes. */
    method UpdateCredits(kind: CreditKind, amount: int) returns (user: UserProfile?)
      modifies currentUser
      ensures user == currentUser
      ensures currentUser != null && kind == Chat ==>
        currentUser.creditsChat == old(currentUser.creditsChat) + amount
        && currentUser.creditsCv == old(currentUser.creditsCv)
      ensures currentUser != null && kind == Cv ==>
        currentUser.creditsCv == old(currentUser.creditsCv) + amount
        && currentUser.creditsChat == old(currentUser.creditsChat)
    {
      if currentUser != null {
        if kind == Chat {
          currentUser.creditsChat := currentUser.creditsChat + amount;
        }
        if kind == Cv {
          currentUser.creditsCv := currentUser.creditsCv + amount;
        }
      }
      user := currentUser;
    }
  }
}
