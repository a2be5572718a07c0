/**
  src/daemon/tlm-seat.c: the life of a seat as a state machine on values.  Each function is one operation or one
  callback of the original, run to its end; what foreign calls answer is a parameter.  The class in SeatObject.dfy is proved
  against these functions.
*/
module SeatSpec {
  import opened Wrappers
  import opened Relogin
  import opened SessionRemote
  import opened UserName

  datatype Config = Config(autoLogin: bool, x11Session: bool, defaultUser: Option<string>)

  /** The template for the default user is complete. */
  predicate GoodConfig(cfg: Config) {
    cfg.defaultUser.Some? ==> Complete(cfg.defaultUser.value)
  }

  /** The arguments of a session creation, and the seat's next_* fields. */
  datatype Login = Login(service: Option<string>, username: Option<string>, password: Option<string>,
                         environment: Option<map<string, string>>)

  const NOBODY := Login(None, None, None, None)

  /** The D-Bus observer of a seat, with the user whose uid may talk to it. */
  datatype UserObserver = UserObserver(user: string, uid: nat)

  datatype Signal =
    | PrepareUserLogin(user: Option<string>)
    | PrepareUserLogout(user: Option<string>)
    | Created
    | Terminated
    | Failed(error: Error)

  /** What happens to sessions: one is started, ends, or is closed because of an error. */
  datatype Life = Began | Ended | Closed

  /** Answers from outside during one operation. */
  datatype Outside = Outside(clock: Clock, spawned: bool, uid: Option<nat>, serverStarted: bool)

  datatype Seat = Seat(
    session: Option<Option<string>>,  // the user of the live session
    next: Login,
    throttle: Throttle,
    defaultUser: Option<string>,
    defaultActive: bool,
    observer: Option<UserObserver>,
    prevObserver: Option<UserObserver>,
    retries: seq<Login>,              // deferred creations whose timers run
    hooks: nat,                       // shutdown handlers connected by the manager
    signals: seq<Signal>,             // everything emitted so far
    life: seq<Life>,
    attempts: seq<Clock>,             // creations that reached the throttle
    fired: nat,                       // deferred creations that were tried again
    switching: Option<Login>,         // the switch accepted last on the live session
    begun: bool                       // a creation has been asked for
  )

  const EMPTY := Seat(None, NOBODY, FRESH, None, false, None, None, [], 0, [], [], [], 0, None, false)

  // ----- The operations -----

  function Emit(s: Seat, signal: Signal): Seat {
    s.(signals := s.signals + [signal])
  }

  function CloseActiveSession(s: Seat, how: Life): Seat {
    if s.session.None? then s else s.(session := None, life := s.life + [how], switching := None)
  }

  function PrepareDefault(cfg: Config, id: string, s: Seat): Seat
    requires GoodConfig(cfg)
  {
    var user := if s.defaultUser.None? && cfg.defaultUser.Some? then Some(DefaultUser(cfg.defaultUser.value, id))
                else s.defaultUser;
    if user.None? then s
    else Emit(s.(defaultUser := user, defaultActive := true), PrepareUserLogin(user))
  }

  function CreateSession(cfg: Config, id: string, s: Seat, login: Login, o: Outside): (Seat, bool)
    requires GoodConfig(cfg)
  {
    if s.session.Some? then (Emit(s.(begun := true), Failed(SessionAlreadyExists)), false) else
    var s1 := s.(throttle := Attempt(s.throttle, o.clock), attempts := s.attempts + [o.clock], begun := true);
    if !Admits(s.throttle, o.clock) then (s1.(retries := s.retries + [login]), true)
    else StartSession(if login.username.None? then PrepareDefault(cfg, id, s1) else s1, login.username, o)
  }

  /** The part of a creation behind the throttle. */
  function StartSession(s: Seat, username: Option<string>, o: Outside): (Seat, bool) {
    var user := if s.defaultActive then s.defaultUser else username;
    if !o.spawned then (Emit(s, Failed(SessionCreationFailure)), false)
    else if user.None? || o.uid.None? || !o.serverStarted then
      (Emit(s.(prevObserver := s.observer, observer := None, life := s.life + [Began, Closed]),
            Failed(DbusServerStartFailure)), false)
    else
      (s.(prevObserver := s.observer, observer := Some(UserObserver(user.value, o.uid.value)), session := Some(user),
          life := s.life + [Began]), true)
  }

  function TerminateSession(s: Seat): (Seat, bool) {
    var s1 := if s.defaultActive then Emit(s.(defaultActive := false), PrepareUserLogout(s.defaultUser)) else s;
    if s.session.None? then (Emit(s1, Failed(SessionNotValid)), false) else (s1, true)
  }

  predicate Accepted(login: Login, authenticated: bool) {
    authenticated && login.username.Some? && login.password.Some?
  }

  function SwitchUser(cfg: Config, id: string, s: Seat, login: Login, authenticated: bool, o: Outside): (Seat, bool)
    requires GoodConfig(cfg)
  {
    if !Accepted(login, authenticated) then (s, false)
    else if s.session.None? then CreateSession(cfg, id, s, login, o)
    else TerminateSession(s.(next := login, switching := Some(login)))
  }

  function HandleSessionCreated(s: Seat): Seat {
    Emit(s, Created).(prevObserver := None)
  }

  function HandleSessionTerminated(cfg: Config, id: string, s: Seat, o: Outside): Seat
    requires GoodConfig(cfg)
  {
    var s1 := Emit(CloseActiveSession(s, Ended), Terminated);
    if s.hooks > 0 then s1 else
    var s2 := s1.(observer := None);
    if !cfg.x11Session && (cfg.autoLogin || s2.next.username.Some?) then
      CreateSession(cfg, id, s2, s2.next, o).0.(next := NOBODY)
    else s2
  }

  predicate Fatal(error: Error) {
    error in {PamAuthFailure, SessionCreationFailure, SessionTerminationFailure}
  }

  function HandleError(s: Seat, error: Error): Seat {
    var s1 := Emit(s, Failed(error));
    if Fatal(error) then CloseActiveSession(s1, Closed).(observer := None) else s1
  }

  function DelayedSession(cfg: Config, id: string, s: Seat, k: nat, o: Outside): Seat
    requires GoodConfig(cfg) && k < |s.retries|
  {
    CreateSession(cfg, id, s.(retries := s.retries[..k] + s.retries[k + 1..], fired := s.fired + 1), s.retries[k], o).0
  }

  function Hear(cfg: Config, id: string, s: Seat, signal: RemoteSignal, o: Outside): Seat
    requires GoodConfig(cfg)
  {
    match signal
    case SessionCreated => HandleSessionCreated(s)
    case SessionTerminated => HandleSessionTerminated(cfg, id, s, o)
    case SessionError(error) => HandleError(s, error)
  }

  /** The session started as number i emits a signal; only the live session has listeners. */
  function RemoteSays(cfg: Config, id: string, s: Seat, i: nat, signal: RemoteSignal, o: Outside): Seat
    requires GoodConfig(cfg)
  {
    if s.session.None? || i + 1 != LifeCount(s.life, Began) then s else Hear(cfg, id, s, signal, o)
  }

  // ----- Runs -----

  datatype Event =
    | Ask(login: Login, outside: Outside)
    | Switch(login: Login, authenticated: bool, outside: Outside)
    | Leave
    | Retry(k: nat, outside: Outside)
    | FromRemote(i: nat, signal: RemoteSignal, outside: Outside)
    | Hook

  function Step(cfg: Config, id: string, s: Seat, e: Event): Seat
    requires GoodConfig(cfg)
  {
    match e
    case Ask(login, o) => CreateSession(cfg, id, s, login, o).0
    case Switch(login, authenticated, o) => SwitchUser(cfg, id, s, login, authenticated, o).0
    case Leave => TerminateSession(s).0
    case Retry(k, o) => if k < |s.retries| then DelayedSession(cfg, id, s, k, o) else s
    case FromRemote(i, signal, o) => RemoteSays(cfg, id, s, i, signal, o)
    case Hook => s.(hooks := s.hooks + 1)
  }

  function RunFrom(cfg: Config, id: string, s: Seat, events: seq<Event>): Seat
    requires GoodConfig(cfg)
  {
    if events == [] then s
    else Step(cfg, id, RunFrom(cfg, id, s, events[..|events| - 1]), events[|events| - 1])
  }

  function Run(cfg: Config, id: string, events: seq<Event>): Seat
    requires GoodConfig(cfg)
  {
    RunFrom(cfg, id, EMPTY, events)
  }

  // ----- Reading the histories -----

  function LifeCount(life: seq<Life>, what: Life): nat {
    if life == [] then 0
    else LifeCount(life[..|life| - 1], what) + if life[|life| - 1] == what then 1 else 0
  }

  /** A session is live. */
  predicate Live(life: seq<Life>) {
    life != [] && life[|life| - 1] == Began
  }

  /** Sessions start only when none is live, and only a live one ends or is closed. */
  ghost predicate OneAtATime(life: seq<Life>) {
    life == [] ||
    var before := life[..|life| - 1];
    OneAtATime(before) && (life[|life| - 1] == Began <==> !Live(before))
  }

  function Terminations(signals: seq<Signal>): nat {
    if signals == [] then 0
    else Terminations(signals[..|signals| - 1]) + if signals[|signals| - 1] == Terminated then 1 else 0
  }

  predicate IsPrepare(signal: Signal) {
    signal.PrepareUserLogin? || signal.PrepareUserLogout?
  }

  function LastPrepare(signals: seq<Signal>): Option<Signal> {
    if signals == [] then None
    else if IsPrepare(signals[|signals| - 1]) then Some(signals[|signals| - 1])
    else LastPrepare(signals[..|signals| - 1])
  }

  function LastSessionSignal(signals: seq<Signal>): Option<Signal> {
    if signals == [] then None
    else if !IsPrepare(signals[|signals| - 1]) then Some(signals[|signals| - 1])
    else LastSessionSignal(signals[..|signals| - 1])
  }

  /** Prepare signals name one user only, and a logout follows a login, not another logout. */
  ghost predicate PreparesPaired(signals: seq<Signal>, user: Option<string>) {
    signals == [] ||
    var before, last := signals[..|signals| - 1], signals[|signals| - 1];
    && PreparesPaired(before, user)
    && (IsPrepare(last) ==> user.Some? && last.user == user)
    && (last.PrepareUserLogout? ==> LastPrepare(before) == Some(PrepareUserLogin(user)))
  }
}
