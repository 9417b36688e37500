/** The authentication store: an optional signed-in user, a mock login that
    picks the role from the e-mail address, registration as a regular user,
    logout, and role and permission queries. */
module AuthStore {
  import opened Wrappers
  import opened Records

  datatype SessionUser = SessionUser(id: string, email: string, name: string, role: Role, avatar: Option<string>)

  datatype AuthState = AuthState(user: Option<SessionUser>)

  const SignedOut := AuthState(None)

  /** The role's name as the application spells it. */
  function RoleName(r: Role): (s: string)
    ensures s == "admin" <==> r == Admin
    ensures s == "organizer" <==> r == Organizer
    ensures s == "user" <==> r == User
  {
    match r
    case User => "user"
    case Organizer => "organizer"
    case Admin => "admin"
  }

  function IsAuthenticated(s: AuthState): (r: bool)
    ensures r <==> s.user != None
  {
    s.user.Some?
  }

  const AdminEmail := "admin@example.com"
  const OrganizerEmail := "organizer@example.com"

  /** Signs in with a mock account: the admin and organizer addresses get
      those roles with fixed ids and names, any other address is a regular
      user with id "3". The password plays no part. */
  function Login(s: AuthState, email: string, password: string): (r: (AuthState, SessionUser))
    ensures r.0 == AuthState(Some(r.1))
    ensures r.1.email == email && r.1.avatar.None?
    ensures r.1.role == Admin <==> email == AdminEmail
    ensures r.1.role == Organizer <==> email == OrganizerEmail
    ensures r.1.role == Admin ==> r.1.id == "1" && r.1.name == "Admin User"
    ensures r.1.role == Organizer ==> r.1.id == "2" && r.1.name == "Event Organizer"
    ensures r.1.role == User ==> r.1.id == "3" && r.1.name == "Regular User"
  {
    var u :=
      if email == AdminEmail then SessionUser("1", email, "Admin User", Admin, None)
      else if email == OrganizerEmail then SessionUser("2", email, "Event Organizer", Organizer, None)
      else SessionUser("3", email, "Regular User", User, None);
    (AuthState(Some(u)), u)
  }

  /** The password does not influence the login. */
  lemma LoginIgnoresPassword(s: AuthState, t: AuthState, email: string, p1: string, p2: string)
    ensures Login(s, email, p1) == Login(t, email, p2)
  {
  }

  /** Registers and signs in a regular user under `newId` (the store uses
      the current millisecond clock reading, as a decimal string). */
  function Register(s: AuthState, name: string, email: string, password: string, newId: string): (r: (AuthState, SessionUser))
    ensures r.0 == AuthState(Some(r.1))
    ensures r.1 == SessionUser(newId, email, name, User, None)
  {
    var u := SessionUser(newId, email, name, User, None);
    (AuthState(Some(u)), u)
  }

  function Logout(s: AuthState): (r: AuthState)
    ensures !IsAuthenticated(r)
  {
    SignedOut
  }

  /** A user is signed in and holds the role named `role`. */
  function HasRole(s: AuthState, role: string): (r: bool)
    ensures r <==> exists rl :: s.user.Some? && s.user.value.role == rl && RoleName(rl) == role
  {
    s.user.Some? && RoleName(s.user.value.role) == role
  }

  /** The fixed table of what each role may do. */
  function Permissions(r: Role): seq<string> {
    match r
    case Admin => ["create", "read", "update", "delete", "manage_users", "manage_events"]
    case Organizer => ["create", "read", "update", "delete", "manage_own_events"]
    case User => ["read", "create_bookings"]
  }

  /** A user is signed in and the table grants their role `permission`. */
  function HasPermission(s: AuthState, permission: string): (r: bool)
    ensures !IsAuthenticated(s) ==> !r
    ensures r <==> s.user.Some? && permission in Permissions(s.user.value.role)
  {
    s.user.Some? && permission in Permissions(s.user.value.role)
  }

  /** Some consequences of the table: user management is for admins only,
      booking for regular users only, every signed-in user may read, and
      admins do not hold `manage_own_events`. */
  lemma PermissionFacts(s: AuthState)
    ensures HasPermission(s, "manage_users") <==> HasRole(s, "admin")
    ensures HasPermission(s, "create_bookings") <==> HasRole(s, "user")
    ensures HasPermission(s, "read") <==> IsAuthenticated(s)
    ensures HasRole(s, "admin") ==> !HasPermission(s, "manage_own_events")
    ensures HasPermission(s, "manage_own_events") <==> HasRole(s, "organizer")
  {
  }

  /** After a login the store holds exactly the role the address maps to. */
  lemma LoginRole(s: AuthState, email: string, password: string)
    ensures var t := Login(s, email, password).0;
      && IsAuthenticated(t)
      && HasRole(t, "admin") == (email == AdminEmail)
      && HasRole(t, "organizer") == (email == OrganizerEmail)
      && HasRole(t, "user") == (email != AdminEmail && email != OrganizerEmail)
  {
  }

  /** Logging out undoes a login or a registration. */
  lemma LogoutAfterSignIn(s: AuthState, name: string, email: string, password: string, newId: string)
    ensures Logout(Login(s, email, password).0) == SignedOut
    ensures Logout(Register(s, name, email, password, newId).0) == SignedOut
    ensures !HasRole(SignedOut, "admin") && !HasPermission(SignedOut, "read")
  {
  }
}
