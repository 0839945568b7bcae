/**
 * The signed-in user as the browser keeps it: the user object, whether someone is signed in,
 * and whether a request is in flight. Every request's outcome is a parameter.
 */
module AuthClient {
  import opened Wrappers
  import opened Json
  import opened Client

  /** The message the server sends to an unverified user, and the text the store shows instead. */
  const UnverifiedEmail := "Please verify your email"
  const VerifyPrompt := "Please verify your email before signing in."
  const InvalidCredentials := "Invalid email or password."

  /** `getUserStats`: the balance and the data-source count, read back from the server. */
  datatype Stats = Stats(credits: real, dataSourcesCount: real, maxDataSources: real)

  /** A completed action: `{ success }`, with the error it reports when it failed. */
  datatype Done = Done(success: bool, error: Option<string>)

  /** The error `login` reports for a refusal carrying `message`. */
  function LoginErrorMessage(message: Option<string>): (m: string)
    ensures m != []
    ensures m != UnverifiedEmail
    ensures message == Some(UnverifiedEmail) ==> m == VerifyPrompt
    ensures Given(message) && message != Some(UnverifiedEmail) ==> m == message.value
    ensures !Given(message) ==> m == InvalidCredentials
  {
    if message == Some(UnverifiedEmail) then VerifyPrompt
    else if Given(message) then message.value
    else InvalidCredentials
  }

  /** `{ ...user, credits, dataSourcesCount }` */
  function WithStats(user: Obj, stats: Stats): (u: Obj)
    ensures u.Keys == user.Keys + {"credits", "dataSourcesCount"}
    ensures u["credits"] == JNum(stats.credits) && u["dataSourcesCount"] == JNum(stats.dataSourcesCount)
    ensures forall k :: k in user && k != "credits" && k != "dataSourcesCount" ==> u[k] == user[k]
  {
    user["credits" := JNum(stats.credits)]["dataSourcesCount" := JNum(stats.dataSourcesCount)]
  }

  /** Reading the same stats twice changes nothing the first reading did not. */
  lemma WithStatsIdempotent(user: Obj, stats: Stats)
    ensures WithStats(WithStats(user, stats), stats) == WithStats(user, stats)
  {
    var once := WithStats(user, stats);
    var twice := WithStats(once, stats);
    assert twice.Keys == once.Keys;
    forall k | k in once
      ensures twice[k] == once[k]
    {
    }
  }

  class AuthStore {
    var user: Option<Obj>
    var isAuthenticated: bool
    var isLoading: bool

    /** Someone is signed in exactly when a user object is held. */
    predicate Valid()
      reads this
    {
      isAuthenticated <==> user.Some?
    }

    constructor ()
      ensures user.None? && !isAuthenticated && !isLoading
      ensures Valid()
    {
      user := None;
      isAuthenticated := false;
      isLoading := false;
    }

    /** `setUser(user)`: `isAuthenticated` follows from the user. */
    method SetUser(u: Option<Obj>)
      modifies this
      ensures user == u && isAuthenticated == u.Some? && isLoading == old(isLoading)
      ensures Valid()
    {
      user := u;
      isAuthenticated := u.Some?;
    }

    method SetLoading(loading: bool)
      modifies this
      ensures isLoading == loading && user == old(user) && isAuthenticated == old(isAuthenticated)
    {
      isLoading := loading;
    }

    /** `login(email, password)`; `fetched` is what the login request returned. */
    method Login(fetched: Fetched<Envelope<Obj>>) returns (r: Done)
      modifies this
      ensures !isLoading
      ensures r.success <==> fetched.Responded? && fetched.body.Ok?
      ensures r.success ==> user == Some(fetched.body.payload) && isAuthenticated && r.error.None?
      ensures !r.success ==> user == old(user) && isAuthenticated == old(isAuthenticated)
      ensures fetched.Responded? && fetched.body.Rejected? ==> r.error == Some(LoginErrorMessage(fetched.body.message))
      ensures fetched.Threw? ==> r.error == Some(NetworkError)
      ensures old(Valid()) ==> Valid()
    {
      isLoading := true;
      match fetched
      case Threw =>
        isLoading := false;
        return Done(false, Some(NetworkError));
      case Responded(Ok(u)) =>
        user := Some(u);
        isAuthenticated := true;
        isLoading := false;
        return Done(true, None);
      case Responded(Rejected(message)) =>
        isLoading := false;
        return Done(false, Some(LoginErrorMessage(message)));
    }

    /** `register(name, email, password)`: the signed-in user is not touched. */
    method Register(fetched: Fetched<Envelope<()>>) returns (r: Done)
      modifies this
      ensures !isLoading && user == old(user) && isAuthenticated == old(isAuthenticated)
      ensures r.success <==> fetched.Responded? && fetched.body.Ok?
      ensures r.success ==> r.error.None?
      ensures fetched.Responded? && fetched.body.Rejected? ==> r.error == fetched.body.message
      ensures fetched.Threw? ==> r.error == Some(NetworkError)
    {
      isLoading := true;
      match fetched
      case Threw =>
        isLoading := false;
        return Done(false, Some(NetworkError));
      case Responded(body) =>
        isLoading := false;
        if body.Ok? {
          return Done(true, None);
        }
        return Done(false, body.message);
    }

    /** `logout()`: whatever the request does, the `finally` block signs the user out. */
    method Logout()
      modifies this
      ensures user.None? && !isAuthenticated && !isLoading
      ensures Valid()
    {
      isLoading := true;
      user := None;
      isAuthenticated := false;
      isLoading := false;
    }

    /** `fetchProfile()`: anything but a successful answer signs the user out. */
    method FetchProfile(fetched: Fetched<Envelope<Obj>>) returns (success: bool)
      modifies this
      ensures !isLoading
      ensures success <==> fetched.Responded? && fetched.body.Ok?
      ensures success ==> user == Some(fetched.body.payload) && isAuthenticated
      ensures !success ==> user.None? && !isAuthenticated
      ensures Valid()
    {
      isLoading := true;
      if fetched.Responded? && fetched.body.Ok? {
        user := Some(fetched.body.payload);
        isAuthenticated := true;
        isLoading := false;
        return true;
      }
      user := None;
      isAuthenticated := false;
      isLoading := false;
      return false;
    }

    /** `fetchStats()`: only the held user's balance and count change, and only on success. */
    method FetchStats(fetched: Fetched<Envelope<Stats>>) returns (stats: Option<Stats>)
      modifies this
      ensures stats.Some? <==> fetched.Responded? && fetched.body.Ok?
      ensures stats.Some? ==> stats.value == fetched.body.payload
      ensures isAuthenticated == old(isAuthenticated) && isLoading == old(isLoading)
      ensures user == if stats.Some? && old(user).Some? then Some(WithStats(old(user).value, stats.value)) else old(user)
      ensures old(Valid()) ==> Valid()
    {
      if fetched.Responded? && fetched.body.Ok? {
        var s := fetched.body.payload;
        if user.Some? {
          user := Some(WithStats(user.value, s));
        }
        return Some(s);
      }
      return None;
    }
  }
}
