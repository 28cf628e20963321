/** The admin page (src/pages/AdminPage.tsx): classifying the session into
    the panel to show, and logging out. */
module AdminPage {
  import opened Wrappers

  datatype Status = Loading | Login | NotAdmin | Ready | Error

  datatype User = User(id: string, email: Option<string>)

  /** An error from the auth client: its name, its message (possibly null),
      and its `String(...)` rendering. */
  datatype AuthError = AuthError(name: string, message: Option<string>, rendered: string)

  /** The reply to `auth.getUser()`. */
  datatype UserReply = UserFailed(err: AuthError) | NoUser | SignedIn(user: User)

  /** The reply to the admin-profile lookup for one user id. */
  datatype ProfileReply = ProfileFailed(err: AuthError) | NoProfile | HasProfile

  datatype Query = GetUser | ProfileOf(userId: string)

  datatype Session = Session(status: Status, user: Option<User>, errorMessage: Option<string>)

  datatype Loaded = Loaded(session: Session, queries: seq<Query>)

  const SessionMissing := "AuthSessionMissingError"

  /** `error.message ?? String(error)`. */
  function Describe(e: AuthError): (m: string)
    ensures e.message.Some? ==> m == e.message.value
    ensures e.message.None? ==> m == e.rendered
  {
    if e.message.Some? then e.message.value else e.rendered
  }

  /** `loadSession`. */
  function LoadSession(prev: Session, reply: UserReply, profileOf: string -> ProfileReply): (r: Loaded)
    ensures r.session.status != Loading
    ensures |r.queries| >= 1 && r.queries[0] == GetUser
    // a missing session means "log in", not an error; the stored user is left as it was
    ensures reply.UserFailed? && reply.err.name == SessionMissing ==>
      r == Loaded(Session(Login, prev.user, None), [GetUser])
    ensures reply.UserFailed? && reply.err.name != SessionMissing ==>
      r == Loaded(Session(Error, prev.user, Some(Describe(reply.err))), [GetUser])
    ensures reply.NoUser? ==> r == Loaded(Session(Login, None, None), [GetUser])
    ensures reply.SignedIn? ==>
      var u := reply.user;
      && r.session.user == Some(u)
      && r.queries == [GetUser, ProfileOf(u.id)]
      && (profileOf(u.id).ProfileFailed? ==>
            r.session == Session(Error, Some(u), Some(Describe(profileOf(u.id).err))))
      && (profileOf(u.id).NoProfile? ==> r.session == Session(NotAdmin, Some(u), None))
      && (profileOf(u.id).HasProfile? ==> r.session == Session(Ready, Some(u), None))
  {
    match reply
    case UserFailed(e) =>
      if e.name == SessionMissing then Loaded(Session(Login, prev.user, None), [GetUser])
      else Loaded(Session(Error, prev.user, Some(Describe(e))), [GetUser])
    case NoUser => Loaded(Session(Login, None, None), [GetUser])
    case SignedIn(u) =>
      var qs := [GetUser, ProfileOf(u.id)];
      match profileOf(u.id)
      case ProfileFailed(e) => Loaded(Session(Error, Some(u), Some(Describe(e))), qs)
      case NoProfile => Loaded(Session(NotAdmin, Some(u), None), qs)
      case HasProfile => Loaded(Session(Ready, Some(u), None), qs)
  }

  /** `handleLogout`: whatever the session, the login panel with no user and
      no message. */
  function Logout(s: Session): (r: Session)
    ensures r.status == Login && r.user.None? && r.errorMessage.None?
  {
    Session(Login, None, None)
  }

  /** The tab bar and the tabs render only in the ready state. */
  predicate TabsVisible(s: Session)
  {
    s.status == Ready
  }

  /** The admin tabs are reachable exactly when a signed-in user has an admin
      profile, and never right after logging out. */
  lemma TabsOnlyForAdmins(prev: Session, reply: UserReply, profileOf: string -> ProfileReply)
    ensures TabsVisible(LoadSession(prev, reply, profileOf).session) <==>
      reply.SignedIn? && profileOf(reply.user.id).HasProfile?
    ensures !TabsVisible(Logout(prev))
  {
  }

  /** An error message is shown exactly in the error state. */
  lemma MessageOnlyOnError(prev: Session, reply: UserReply, profileOf: string -> ProfileReply)
    ensures var s := LoadSession(prev, reply, profileOf).session;
      s.errorMessage.Some? <==> s.status == Error
  {
  }
}
