/** The three route guards, each twice: as intended, and as written, where
    reading `.value` off values the auth store has already unwrapped
    changes every decision. A guard lets navigation proceed, redirects it,
    aborts it with an HTTP error, or throws. The routes navigated to and
    from are accepted and play no part in any decision. */
module RouteGuards {
  import opened Wrappers
  import opened AuthStore
  import Records

  datatype Route = Route(path: string)

  /** What a guard does with a navigation: let it proceed, redirect it,
      abort it with an HTTP error, or throw some other error. */
  datatype Decision =
    | Proceed
    | Redirect(to: string)
    | Abort(statusCode: int, statusMessage: string)
    | Crash(error: string)

  const Forbidden := 403
  const AdminDenied := "Access denied. Administrator role required."
  const OrganizerDenied := "Access denied. Organizer role required."
  const SignInPath := "/auth/signin"

  /** Admin pages, as intended: only a signed-in admin may pass. */
  function AdminGuard(s: AuthState, to: Route, from: Route): (d: Decision)
    ensures d == Proceed <==> s.user.Some? && s.user.value.role == Records.Admin
    ensures d != Proceed ==> d == Abort(403, AdminDenied)
  {
    if s.user.None? || !HasRole(s, "admin") then Abort(Forbidden, AdminDenied)
    else Proceed
  }

  /** Organizer pages, as intended: a signed-in organizer or admin may
      pass. */
  function OrganizerGuard(s: AuthState, to: Route, from: Route): (d: Decision)
    ensures d == Proceed <==> s.user.Some? && s.user.value.role in {Records.Organizer, Records.Admin}
    ensures d != Proceed ==> d == Abort(403, OrganizerDenied)
  {
    if s.user.None? || (!HasRole(s, "organizer") && !HasRole(s, "admin")) then Abort(Forbidden, OrganizerDenied)
    else Proceed
  }

  /** Signed-in pages, as intended: anyone signed in proceeds, everyone else is sent to
      the sign-in page. This guard never aborts. */
  function AuthGuard(s: AuthState, to: Route, from: Route): (d: Decision)
    ensures d == Proceed <==> IsAuthenticated(s)
    ensures d != Proceed ==> d == Redirect("/auth/signin")
    ensures !d.Abort?
  {
    if !IsAuthenticated(s) then Redirect(SignInPath) else Proceed
  }

  // ------------------------------------------------------ as written --

  /** The JavaScript values a guard reads off the auth store. */
  datatype JsValue = Undefined | Null | Boolean(b: bool) | UserObject(u: SessionUser)

  predicate Truthy(v: JsValue) {
    match v
    case Undefined => false
    case Null => false
    case Boolean(b) => b
    case UserObject(_) => true
  }

  const ReadOfNull := "TypeError: Cannot read properties of null (reading 'value')"

  /** Reading the property `value`: on null or undefined this throws a
      TypeError; a boolean and a user record have no such property, so the
      read yields undefined. */
  function ValueOf(v: JsValue): (r: Result<JsValue, string>)
    ensures r.Failure? <==> v.Null? || v.Undefined?
    ensures r.Success? ==> r.value == Undefined
  {
    match v
    case Undefined => Failure(ReadOfNull)
    case Null => Failure(ReadOfNull)
    case _ => Success(Undefined)
  }

  /** `user` as a destructuring of the store sees it. The store object
      unwraps the refs and computed values it holds, so the destructured
      `user` is the user record or null, not a ref. */
  function StoreUser(s: AuthState): (v: JsValue)
    ensures v.Null? <==> !IsAuthenticated(s)
    ensures IsAuthenticated(s) ==> v == UserObject(s.user.value)
  {
    match s.user
    case None => Null
    case Some(u) => UserObject(u)
  }

  /** `isAuthenticated` as a destructuring of the store sees it: the
      unwrapped boolean, not a computed ref. */
  function StoreIsAuthenticated(s: AuthState): (v: JsValue)
    ensures v == Boolean(IsAuthenticated(s))
  {
    Boolean(s.user.Some?)
  }

  /** The admin guard as written: it reads `user.value` off the unwrapped
      user, which is undefined for every signed-in user and throws when no
      one is signed in. So it never lets anyone through. */
  function AdminGuardAsWritten(s: AuthState, to: Route, from: Route): (d: Decision)
    ensures d != Proceed
    ensures !IsAuthenticated(s) ==> d == Crash(ReadOfNull)
    ensures IsAuthenticated(s) ==> d == Abort(403, AdminDenied)
  {
    match ValueOf(StoreUser(s))
    case Failure(e) => Crash(e)
    case Success(v) =>
      if !Truthy(v) || !HasRole(s, "admin") then Abort(Forbidden, AdminDenied) else Proceed
  }

  /** The organizer guard as written: the same read of `user.value`, so it
      never lets anyone through either. */
  function OrganizerGuardAsWritten(s: AuthState, to: Route, from: Route): (d: Decision)
    ensures d != Proceed
    ensures !IsAuthenticated(s) ==> d == Crash(ReadOfNull)
    ensures IsAuthenticated(s) ==> d == Abort(403, OrganizerDenied)
  {
    match ValueOf(StoreUser(s))
    case Failure(e) => Crash(e)
    case Success(v) =>
      if !Truthy(v) || (!HasRole(s, "organizer") && !HasRole(s, "admin")) then
        Abort(Forbidden, OrganizerDenied)
      else Proceed
  }

  /** The auth guard as written: `isAuthenticated.value` on the unwrapped
      boolean is undefined, so every navigation is sent to sign in. */
  function AuthGuardAsWritten(s: AuthState, to: Route, from: Route): (d: Decision)
    ensures d == Redirect(SignInPath)
  {
    match ValueOf(StoreIsAuthenticated(s))
    case Failure(e) => Crash(e)
    case Success(v) => if !Truthy(v) then Redirect(SignInPath) else Proceed
  }

  /** The admin guard as written agrees with the intended one only on
      signed-in users who are not admins: it refuses the admin and throws a
      TypeError instead of the 403 when no one is signed in. */
  lemma AdminGuardAsWrittenDiffers(s: AuthState, to: Route, from: Route)
    ensures AdminGuardAsWritten(s, to, from) == AdminGuard(s, to, from)
      <==> IsAuthenticated(s) && s.user.value.role != Records.Admin
  {
  }

  /** The organizer guard as written agrees with the intended one only on
      signed-in regular users. */
  lemma OrganizerGuardAsWrittenDiffers(s: AuthState, to: Route, from: Route)
    ensures OrganizerGuardAsWritten(s, to, from) == OrganizerGuard(s, to, from)
      <==> IsAuthenticated(s) && s.user.value.role == Records.User
  {
  }

  /** The auth guard as written agrees with the intended one only when no
      one is signed in. */
  lemma AuthGuardAsWrittenDiffers(s: AuthState, to: Route, from: Route)
    ensures AuthGuardAsWritten(s, to, from) == AuthGuard(s, to, from) <==> !IsAuthenticated(s)
  {
  }

  /** The concrete case: after logging in as the admin address, the intended
      guards all let the admin through, while the guards as written send
      the admin to sign in and refuse both areas with a 403. */
  lemma SignedInAdminShutOutAsWritten(to: Route, from: Route)
    ensures var t := Login(SignedOut, AdminEmail, "").0;
      && AuthGuard(t, to, from) == Proceed
      && AdminGuard(t, to, from) == Proceed
      && OrganizerGuard(t, to, from) == Proceed
      && AuthGuardAsWritten(t, to, from) == Redirect(SignInPath)
      && AdminGuardAsWritten(t, to, from) == Abort(403, AdminDenied)
      && OrganizerGuardAsWritten(t, to, from) == Abort(403, OrganizerDenied)
  {
  }

  /** Signed out, the intended admin and organizer guards answer with a
      403, while the guards as written throw a TypeError. */
  lemma SignedOutCrashesAsWritten(to: Route, from: Route)
    ensures AdminGuard(SignedOut, to, from) == Abort(403, AdminDenied)
    ensures OrganizerGuard(SignedOut, to, from) == Abort(403, OrganizerDenied)
    ensures AdminGuardAsWritten(SignedOut, to, from) == Crash(ReadOfNull)
    ensures OrganizerGuardAsWritten(SignedOut, to, from) == Crash(ReadOfNull)
  {
  }

  /** After any login the guards as written open nothing. */
  lemma LoginOpensNothingAsWritten(s: AuthState, email: string, password: string, to: Route, from: Route)
    ensures var t := Login(s, email, password).0;
      && AuthGuardAsWritten(t, to, from) == Redirect(SignInPath)
      && AdminGuardAsWritten(t, to, from) == Abort(403, AdminDenied)
      && OrganizerGuardAsWritten(t, to, from) == Abort(403, OrganizerDenied)
  {
  }

  // ------------------------------------------------------- properties --

  /** The guards are nested: whoever passes the admin guard passes the
      organizer guard, and whoever passes that passes the auth guard. */
  lemma GuardsNest(s: AuthState, to: Route, from: Route)
    ensures AdminGuard(s, to, from) == Proceed ==> OrganizerGuard(s, to, from) == Proceed
    ensures OrganizerGuard(s, to, from) == Proceed ==> AuthGuard(s, to, from) == Proceed
  {
  }

  /** The organizer guard turns away regular users, and the admin guard
      turns away organizers too. */
  lemma GuardsRejectLowerRoles(u: SessionUser, to: Route, from: Route)
    ensures u.role == Records.User ==> OrganizerGuard(AuthState(Some(u)), to, from).Abort?
    ensures u.role != Records.Admin ==> AdminGuard(AuthState(Some(u)), to, from).Abort?
  {
  }

  /** No decision depends on the routes. */
  lemma GuardsIgnoreRoutes(s: AuthState, to1: Route, from1: Route, to2: Route, from2: Route)
    ensures AdminGuard(s, to1, from1) == AdminGuard(s, to2, from2)
    ensures OrganizerGuard(s, to1, from1) == OrganizerGuard(s, to2, from2)
    ensures AuthGuard(s, to1, from1) == AuthGuard(s, to2, from2)
  {
  }

  /** A login as the admin address opens every guarded area; a login with
      any other address is kept out of the admin area. */
  lemma LoginOpensGuards(s: AuthState, email: string, password: string, to: Route, from: Route)
    ensures var t := Login(s, email, password).0;
      && AuthGuard(t, to, from) == Proceed
      && (AdminGuard(t, to, from) == Proceed <==> email == AdminEmail)
      && (OrganizerGuard(t, to, from) == Proceed <==> email == AdminEmail || email == OrganizerEmail)
  {
  }
}
