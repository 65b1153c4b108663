/** The request middleware: the public-path test and the sign-in gate.
    The Supabase client and the signed-in user are parameters. */
module Middleware {
  import opened Common

  const PublicPaths: seq<string> := [
    "/auth/login",
    "/auth/register",
    "/auth/reset-password",
    "/api/auth/login",
    "/api/auth/register",
    "/api/auth/reset-password"
  ]

  const LoginPath: string := "/auth/login"

  /** `PUBLIC_PATHS.includes(pathname)`: an exact match. */
  predicate IsPublic(pathname: string)
  {
    pathname in PublicPaths
  }

  /** The match is exact: a trailing slash or a sub-path is not public,
      nor are the password recovery page and the logout endpoint. */
  lemma ExactMatch()
    ensures IsPublic("/auth/login") && IsPublic("/api/auth/register")
    ensures !IsPublic("/auth/login/")
    ensures !IsPublic("/auth/forgot-password")
    ensures !IsPublic("/api/auth/logout")
    ensures !IsPublic("/")
  {
    assert PublicPaths[0] == "/auth/login" && PublicPaths[4] == "/api/auth/register";
    assert |"/auth/login/"| == 12;
    assert forall i :: 0 <= i < |PublicPaths| ==> PublicPaths[i] != "/auth/login/";
    assert |"/auth/forgot-password"| == 21;
    assert forall i :: 0 <= i < |PublicPaths| ==> PublicPaths[i] != "/auth/forgot-password";
    assert |"/api/auth/logout"| == 16;
    assert forall i :: 0 <= i < |PublicPaths| ==> PublicPaths[i] != "/api/auth/logout";
  }

  /** The user Supabase reports, and what the middleware keeps of it. */
  datatype AuthUser = AuthUser(id: string, email: Option<string>)
  datatype LocalUser = LocalUser(email: Option<string>, id: string)

  datatype Response = Next | Redirect(location: string)

  /** Astro's `locals` for one request. */
  class Locals {
    var supabase: Option<int>
    var user: Option<LocalUser>

    constructor ()
      ensures supabase == None && user == None
    {
      supabase, user := None, None;
    }
  }

  /** `onRequest`: the client is attached first; a public path goes on
      without asking for the user; otherwise a signed-in user is attached
      and the request goes on, and anyone else is sent to the login page.
      `lookedUp` tells whether `getUser` was called. */
  method OnRequest(locals: Locals, pathname: string, client: int, user: Option<AuthUser>)
      returns (response: Response, lookedUp: bool)
    modifies locals
    ensures locals.supabase == Some(client) && response == Decide(pathname, user)
    ensures lookedUp <==> !IsPublic(pathname)
    ensures IsPublic(pathname) ==> response == Next && locals.user == old(locals.user)
    ensures !IsPublic(pathname) && user.Some? ==>
      response == Next && locals.user == Some(LocalUser(user.value.email, user.value.id))
    ensures !IsPublic(pathname) && user.None? ==> response == Redirect(LoginPath) && locals.user == old(locals.user)
  {
    locals.supabase := Some(client);
    if IsPublic(pathname) {
      return Next, false;
    }
    lookedUp := true;
    match user {
      case Some(u) =>
        locals.user := Some(LocalUser(u.email, u.id));
        response := Next;
      case None =>
        response := Redirect(LoginPath);
    }
  }

  /** The response `onRequest` gives: a request goes on when its path is
      public or a user is signed in, and is sent to the login page
      otherwise. */
  function Decide(pathname: string, user: Option<AuthUser>): (r: Response)
    ensures r == Next <==> IsPublic(pathname) || user.Some?
    ensures r.Redirect? ==> r.location == LoginPath
  {
    if IsPublic(pathname) || user.Some? then Next else Redirect(LoginPath)
  }

  /** The two paths a signed-out visitor is redirected from although
      they concern signing in or out. */
  lemma SignedOutRedirected()
    ensures Decide("/auth/forgot-password", None) == Redirect(LoginPath)
    ensures Decide("/api/auth/logout", None) == Redirect(LoginPath)
  {
    ExactMatch();
  }
}
