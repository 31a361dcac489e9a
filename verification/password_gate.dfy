/** The password gate in front of the editor route
    (frontend/bigjohn/src/components/ProtectedRoute.js): a two-state machine,
    locked or unlocked, seeded from the browser's session storage, unlocked by
    typing the configured password and pressing Enter or the login button,
    and never locked again. `Step` gives the effect of each user event on the
    whole state; the class `Gate` holds the component's state and the session
    storage it writes, and is proved against `Step`. */
module PasswordGate {
  import opened Web

  const AuthKey := "isNewsEditorAuthenticated"

  /** `sessionStorage.getItem(AuthKey) === "true"`; a missing key reads as
      null, which is not "true". */
  predicate StoredFlag(session: map<string, string>)
  {
    AuthKey in session && session[AuthKey] == "true"
  }

  /** The component's state together with the session storage. */
  datatype GateState = GateState(authenticated: bool, password: string, session: map<string, string>)

  datatype Event = PasswordChange(value: string) | LoginClick | KeyPress(key: string)

  datatype Screen = Children | PasswordForm

  /** The state on mount: unlocked iff the session says so, empty password. */
  function Initial(session: map<string, string>): (g: GateState)
    ensures g.authenticated <==> StoredFlag(session)
    ensures g.password == "" && g.session == session
  {
    GateState(StoredFlag(session), "", session)
  }

  /** `handleLogin`. `secret` is the configured password, `None` when the
      environment variable is not set: a typed string is never `===`
      undefined, so then no password opens the gate. */
  function Login(g: GateState, secret: Option<string>): (r: GateState)
    ensures r.authenticated <==> g.authenticated || secret == Some(g.password)
    ensures secret == Some(g.password) ==> r.session == g.session[AuthKey := "true"]
    ensures secret != Some(g.password) ==> r == g
    ensures r.password == g.password
  {
    if secret == Some(g.password) then
      g.(authenticated := true, session := g.session[AuthKey := "true"])
    else
      g
  }

  function Step(g: GateState, e: Event, secret: Option<string>): GateState
  {
    match e
    case PasswordChange(value) => g.(password := value)
    case LoginClick => Login(g, secret)
    case KeyPress(key) => if key == "Enter" then Login(g, secret) else g
  }

  function Run(g: GateState, events: seq<Event>, secret: Option<string>): GateState
    decreases events
  {
    if events == [] then g else Run(Step(g, events[0], secret), events[1..], secret)
  }

  /** Enter behaves exactly like the login button; any other key does
      nothing. */
  lemma EnterIsLogin(g: GateState, key: string, secret: Option<string>)
    ensures Step(g, KeyPress(key), secret) == if key == "Enter" then Step(g, LoginClick, secret) else g
  {
  }

  /** No handler ever locks the gate again. */
  lemma {:induction false} RunNeverRelocks(g: GateState, events: seq<Event>, secret: Option<string>)
    requires g.authenticated
    ensures Run(g, events, secret).authenticated
    decreases events
  {
    if events != [] {
      RunNeverRelocks(Step(g, events[0], secret), events[1..], secret);
    }
  }

  /** The state and the session flag agree on mount and keep agreeing: the
      flag is written exactly when the gate opens, and nothing removes it. */
  predicate Synced(g: GateState)
  {
    g.authenticated == StoredFlag(g.session)
  }

  lemma {:induction false} RunKeepsSynced(session: map<string, string>, events: seq<Event>, secret: Option<string>)
    ensures Synced(Run(Initial(session), events, secret))
  {
    RunFromSynced(Initial(session), events, secret);
  }

  lemma {:induction false} RunFromSynced(g: GateState, events: seq<Event>, secret: Option<string>)
    requires Synced(g)
    ensures Synced(Run(g, events, secret))
    decreases events
  {
    if events != [] {
      RunFromSynced(Step(g, events[0], secret), events[1..], secret);
    }
  }

  /** A locked gate opens only if the configured password is set and was
      typed exactly: it was already in the field, or some event typed it. */
  lemma {:induction false} UnlockNeedsExactPassword(g: GateState, events: seq<Event>, secret: Option<string>)
    requires !g.authenticated
    requires Run(g, events, secret).authenticated
    ensures secret.Some?
    ensures g.password == secret.value
            || exists k :: 0 <= k < |events| && events[k] == PasswordChange(secret.value)
    decreases events
  {
    if events == [] {
    } else {
      var next := Step(g, events[0], secret);
      if next.authenticated {
        assert secret == Some(g.password);
      } else {
        UnlockNeedsExactPassword(next, events[1..], secret);
        if next.password != g.password {
          assert events[0].PasswordChange?;
          if next.password == secret.value {
            assert events[0] == PasswordChange(secret.value);
          }
        }
        if exists k :: 0 <= k < |events[1..]| && events[1..][k] == PasswordChange(secret.value) {
          var k :| 0 <= k < |events[1..]| && events[1..][k] == PasswordChange(secret.value);
          assert events[k + 1] == PasswordChange(secret.value);
        }
      }
    }
  }

  /** The browser's per-tab key-value store. */
  class SessionStorage {
    var items: map<string, string>

    constructor (items: map<string, string>)
      ensures this.items == items
    {
      this.items := items;
    }

    method SetItem(key: string, value: string)
      modifies this`items
      ensures items == old(items)[key := value]
    {
      items := items[key := value];
    }
  }

  /** The state of the gate component. */
  class Gate {
    var authenticated: bool
    var password: string
    const secret: Option<string>
    const storage: SessionStorage

    function State(): GateState
      reads this, storage
    {
      GateState(authenticated, password, storage.items)
    }

    constructor (storage: SessionStorage, secret: Option<string>)
      ensures this.storage == storage && this.secret == secret
      ensures State() == Initial(storage.items)
    {
      this.storage := storage;
      this.secret := secret;
      authenticated := StoredFlag(storage.items);
      password := "";
    }

    /** What the route renders: the protected children exactly when
        unlocked, the password form otherwise. */
    function View(): (s: Screen)
      reads this
      ensures s == Children <==> authenticated
      ensures s == PasswordForm <==> !authenticated
    {
      if authenticated then Children else PasswordForm
    }

    method HandlePasswordChange(value: string)
      modifies this`password
      ensures State() == Step(old(State()), PasswordChange(value), secret)
    {
      password := value;
    }

    method HandleLogin()
      modifies this`authenticated, storage`items
      ensures State() == Step(old(State()), LoginClick, secret)
    {
      if secret == Some(password) {
        authenticated := true;
        storage.SetItem(AuthKey, "true");
      }
    }

    method HandleKeyPress(key: string)
      modifies this`authenticated, storage`items
      ensures State() == Step(old(State()), KeyPress(key), secret)
    {
      if key == "Enter" {
        HandleLogin();
      }
    }
  }
}
