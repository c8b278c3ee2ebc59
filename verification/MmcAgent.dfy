/** Requests, sessions and worker threads of the XML-RPC agent (agent/mmc/agent.py:71-350).

    A request is answered at once, or its function is called in a worker thread, or directly
    when multithreading is off, and the result comes back later, in any order.  Requests of one
    session share the session object. */
module MmcAgent {
  import opened Basics

  type SessionId = nat

  // ----- results -----

  /** What a dictionary holds under "jpegPhoto". */
  datatype Photo = NoPhoto | Bytes | FirstUnsendable | EmptyPhoto | NotIndexable


  datatype Code =
    | Unauthorized | NeedsAuthentication | NoContext | NoSuchFunction | CannotSerialize
    | OfFunction(code: int)

  /** As much of a value as the agent looks at: `sendable` if the serializer accepts it. */
  datatype Value =
    | Nothing
    | Plain(truthy: bool, sendable: bool)
    | Dict(others: bool, photo: Photo, sendable: bool)
    | FaultValue(code: Code)

  datatype Result = Direct(value: Value) | Handler(value: Value)

  datatype Outcome = Returned(result: Result) | Raised

  datatype Answer = FaultAnswer(code: Code) | ValueAnswer(value: Value)

  /** The dictionary that stands for an exception.  It is not a fault. */
  const ERROR_DICT := Dict(true, NoPhoto, true)

  function Settled(o: Outcome): Result {
    match o case Returned(r) => r case Raised => Direct(ERROR_DICT)
  }

  predicate Truthy(r: Result) {
    r.Handler? ||
    match r.value
    case Nothing => false
    case Plain(truthy, _) => truthy
    case Dict(others, photo, _) => others || photo != NoPhoto
    case FaultValue(_) => true
  }

  predicate IsFault(r: Result) { r.Direct? && r.value.FaultValue? }

  predicate Marshals(v: Value) {
    match v
    case Nothing => false
    case Plain(_, sendable) => sendable
    case Dict(_, photo, sendable) => sendable && photo != FirstUnsendable
    case FaultValue(_) => true
  }

  /** What is sent for a result; None if the conversion raises an exception of its own. */
  function Reply(r: Result): Option<Answer> {
    if r == Direct(Nothing) then Some(ValueAnswer(Plain(false, true)))
    else
      match r.value
      case FaultValue(code) => Some(FaultAnswer(code))
      case Dict(_, NotIndexable, _) => None
      case v => Some(if Marshals(v) then ValueAnswer(v) else FaultAnswer(CannotSerialize))
  }

  // ----- plugins -----

  /** `open` is the list NOAUTHNEEDED; `proxy` the methods of RpcProxy. */
  datatype Plugin = Plugin(open: Option<set<string>>, functions: set<string>, proxy: Option<set<string>>)

  datatype Made = NoMaker | MakerRaises | MadeNothing | Made(context: nat)

  /** `make` is what a plugin's context maker does for a user; it may do something else every
      time, so it is also given the number of the occasion. */
  datatype Server = Server(
    plugins: map<string, Plugin>,
    order: seq<string>,
    own: set<string>,
    multithreading: bool,
    make: (string, string, nat) -> Made)

  function FirstDot(path: string): (i: nat)
    ensures i <= |path| && '.' !in path[..i] && (i < |path| ==> path[i] == '.')
  {
    if path == "" || path[0] == '.' then 0
    else
      assert path[..1 + FirstDot(path[1..])] == [path[0]] + path[1..][..FirstDot(path[1..])];
      1 + FirstDot(path[1..])
  }

  function SplitPath(path: string): (Option<string>, string) {
    var i := FirstDot(path);
    if i == |path| then (None, path) else (Some(path[..i]), path[i + 1..])
  }

  predicate NeedAuth(server: Server, path: string) {
    var (mod, func) := SplitPath(path);
    if mod == Some("system") && func == "reloadModulesConfiguration" then false
    else
      match mod
      case None => true
      case Some(m) => m != "" && m in server.plugins && server.plugins[m].open.Some? ==>
        func !in server.plugins[m].open.value
  }

  datatype Lookup = Found | Missing | LookupRaises

  /** An attribute that is missing is reported; a plugin that is missing is not. */
  function FindFunction(server: Server, path: string): Lookup {
    var (mod, func) := SplitPath(path);
    match mod
    case Some(m) =>
      if m == "" || m == "system" then if func in server.own then Found else Missing
      else if m !in server.plugins then LookupRaises
      else if func in server.plugins[m].functions then Found
      else if server.plugins[m].proxy.Some? && func in server.plugins[m].proxy.value then Found
      else Missing
    case None => if func in server.own then Found else Missing
  }

  predicate AuthFunction(path: string) {
    path == "base.ldapAuth" || path == "base.tokenAuthenticate" || path == "base.authenticate"
  }

  // ----- state -----

  datatype Session = Session(loggedin: bool, userid: Option<string>, contexts: map<string, nat>)

  /** A request that is over remembers the outcome of its function, if that was called. */
  datatype Phase =
    | Queued | Pending | Ran(outcome: Outcome)
    | Replied(of: Option<Outcome>) | Dropped(of: Option<Outcome>) | Crashed

  /** `token` and `trusted` are what the checks on arrival found: the credentials of the
      connection, and a session logged in or a function open to all. */
  datatype Request = Request(
    session: SessionId, path: string, args: seq<string>, token: bool, trusted: bool,
    phase: Phase, runs: nat, answers: seq<Answer>)

  datatype State = State(clock: nat, sessions: map<SessionId, Session>, known: set<SessionId>, requests: seq<Request>)

  const FRESH := Session(false, None, map[])

  function SessionOf(s: State, id: SessionId): Session {
    if id in s.sessions then s.sessions[id] else FRESH
  }

  function SetSession(s: State, id: SessionId, session: Session): State {
    s.(sessions := s.sessions[id := session])
  }

  /** The contexts attached, plugin after plugin, until one raises an exception. */
  function Attach(server: Server, mods: seq<string>, user: string, t: nat, contexts: map<string, nat>):
    (map<string, nat>, bool)
  {
    if mods == [] then (contexts, true)
    else
      match server.make(mods[0], user, t)
      case MakerRaises => (contexts, false)
      case Made(c) => Attach(server, mods[1..], user, t, contexts[mods[0] := c])
      case _ => Attach(server, mods[1..], user, t, contexts)
  }

  /** `_associateContext`. */
  function Associated(server: Server, s: State, id: SessionId, user: string): (State, bool) {
    var (contexts, ok) := Attach(server, server.order, user, s.clock, map[]);
    var s' := SetSession(s, id, SessionOf(s, id).(contexts := contexts));
    (s'.(clock := s.clock + 1, known := if ok then s.known + {id} else s.known), ok)
  }

  function Add(s: State, q: Request): State { s.(requests := s.requests + [q]) }

  function Refused(q: Request, code: Code): Request { q.(phase := Replied(None), answers := [FaultAnswer(code)]) }

  function SetRequest(s: State, i: nat, q: Request): State
    requires i < |s.requests|
  {
    s.(requests := s.requests[i := q])
  }

  function Finish(s: State, i: nat, answer: Option<Answer>): State
    requires i < |s.requests| && s.requests[i].phase.Ran?
  {
    var q, of := s.requests[i], Some(s.requests[i].phase.outcome);
    SetRequest(s, i,
      match answer
      case Some(a) => q.(phase := Replied(of), answers := q.answers + [a])
      case None => q.(phase := Dropped(of)))
  }

  // ----- steps -----

  /** The login is carried out for a truthy result that is not a fault. */
  predicate LogsIn(path: string, r: Result) { AuthFunction(path) && !IsFault(r) && Truthy(r) }

  /** The request as it arrives, with the verdict of all checks. */
  function Arrival(s: State, server: Server, id: SessionId, path: string, args: seq<string>, token: bool): Request {
    Request(id, path, args, token, SessionOf(s, id).loggedin || !NeedAuth(server, path), Queued, 0, [])
  }

  function LookedUp(server: Server, s: State, q: Request): State {
    match FindFunction(server, q.path)
    case Found => Add(s, q)
    case Missing => Add(s, Refused(q, NoSuchFunction))
    case LookupRaises => Add(s, q.(phase := Crashed))
  }

  function RootSession(s: State, id: SessionId): State {
    SetSession(s, id, SessionOf(s, id).(userid := Some("root")))
  }

  function Posted(server: Server, s: State, id: SessionId, path: string, args: seq<string>, token: bool): State {
    var s0 := SetSession(s, id, SessionOf(s, id));
    var q := Arrival(s, server, id, path, args, token);
    if !token then Add(s0, Refused(q, Unauthorized))
    else if !q.trusted then Add(s0, Refused(q, NeedsAuthentication))
    else if SessionOf(s, id).loggedin then LookedUp(server, s0, q)
    else
      var (s1, ok) := Associated(server, RootSession(s0, id), id, "root");
      if ok then LookedUp(server, s1, q) else Add(s1, Refused(q, NoContext))
  }

  /** What calling the function gives at once: its outcome, or a Deferred. */
  datatype Body = Done(outcome: Outcome) | Later

  function Called(s: State, i: nat, body: Body): State
    requires i < |s.requests|
  {
    var phase := match body case Done(o) => Ran(o) case Later => Pending;
    SetRequest(s, i, s.requests[i].(phase := phase, runs := s.requests[i].runs + 1))
  }

  function LoggedIn(server: Server, s: State, id: SessionId, user: string): (State, bool) {
    var s1 := SetSession(s, id, SessionOf(s, id).(loggedin := true, userid := Some(user)));
    var (s2, ok) := Associated(server, s1, id, user);
    (if ok then s2 else SetSession(s2, id, SessionOf(s2, id).(loggedin := false)), ok)
  }

  /** `_ebRender` if the function raised an exception, then `_cbRender`. */
  function Delivered(server: Server, s: State, i: nat): State
    requires i < |s.requests| && s.requests[i].phase.Ran?
  {
    var q := s.requests[i];
    var r := Settled(q.phase.outcome);
    if !LogsIn(q.path, r) then Finish(s, i, Reply(r))
    else if q.args == [] then
      Finish(SetSession(s, q.session, SessionOf(s, q.session).(loggedin := true)), i, None)
    else
      var (s1, ok) := LoggedIn(server, s, q.session, q.args[0]);
      Finish(s1, i, if ok then Reply(r) else Some(FaultAnswer(NoContext)))
  }

  datatype Action =
    | Post(id: SessionId, path: string, args: seq<string>, token: bool, body: Body)
    | Run(i: nat, body: Body)
    | Fire(i: nat, outcome: Outcome)
    | Deliver(i: nat)

  predicate InPhase(s: State, i: nat, phase: Phase) { i < |s.requests| && s.requests[i].phase == phase }

  predicate Enabled(server: Server, s: State, a: Action) {
    match a
    case Post(_, _, _, _, _) => true
    case Run(i, _) => server.multithreading && InPhase(s, i, Queued)
    case Fire(i, _) => InPhase(s, i, Pending)
    case Deliver(i) => server.multithreading && i < |s.requests| && s.requests[i].phase.Ran?
  }

  /** Without threads the outcome is delivered as soon as it is there. */
  function DeliveredAtOnce(server: Server, s: State, i: nat): State
    requires i < |s.requests|
  {
    if !server.multithreading && s.requests[i].phase.Ran? then Delivered(server, s, i) else s
  }

  function CalledAtOnce(server: Server, s: State, i: nat, body: Body): State
    requires i < |s.requests|
  {
    if !server.multithreading && s.requests[i].phase == Queued then
      DeliveredAtOnce(server, Called(s, i, body), i)
    else s
  }

  function Step(server: Server, s: State, a: Action): State
    requires Enabled(server, s, a)
  {
    match a
    case Post(id, path, args, token, body) =>
      CalledAtOnce(server, Posted(server, s, id, path, args, token), |s.requests|, body)
    case Run(i, body) => Called(s, i, body)
    case Fire(i, o) => DeliveredAtOnce(server, SetRequest(s, i, s.requests[i].(phase := Ran(o))), i)
    case Deliver(i) => Delivered(server, s, i)
  }

  // ----- one request -----

  predicate Refusal(q: Request, code: Code) {
    if !q.token then code == Unauthorized
    else if !q.trusted then code == NeedsAuthentication
    else code == NoContext || code == NoSuchFunction
  }

  /** What is true of a request at every moment: it has been answered once if it is finished
      and not at all before, its function has been called at most once, and never if it was
      refused. */
  predicate Sound(q: Request) {
    && (q.runs > 0 ==> q.runs == 1 && q.token && q.trusted)
    && match q.phase
       case Queued => q.runs == 0 && q.answers == [] && q.token && q.trusted
       case Pending => q.runs == 1 && q.answers == []
       case Ran(_) => q.runs == 1 && q.answers == []
       case Replied(_) =>
         |q.answers| == 1 && (q.runs == 0 ==> q.answers[0].FaultAnswer? && Refusal(q, q.answers[0].code))
       case Dropped(_) => q.runs == 1 && q.answers == []
       case Crashed => q.runs == 0 && q.answers == [] && q.token && q.trusted
  }

  predicate AllSound(s: State) {
    forall i | 0 <= i < |s.requests| :: Sound(s.requests[i])
  }

  predicate Over(q: Request) { q.phase.Replied? || q.phase.Dropped? || q.phase.Crashed? }

  predicate SameArrival(q: Request, q': Request) {
    q'.session == q.session && q'.path == q.path && q'.args == q.args && q'.token == q.token && q'.trusted == q.trusted
  }

  /** `q'` is what has become of `q`. */
  predicate Became(q: Request, q': Request) {
    && SameArrival(q, q') && q.runs <= q'.runs && q.answers <= q'.answers
    && (Over(q) ==> q' == q)
  }

  predicate Progress(s: State, s': State) {
    && |s.requests| <= |s'.requests|
    && forall i | 0 <= i < |s.requests| :: Became(s.requests[i], s'.requests[i])
  }

  /** The answer a finished function gets, for every result, exception and login outcome. */
  function FinalAnswer(server: Server, s: State, i: nat): Option<Answer>
    requires i < |s.requests| && s.requests[i].phase.Ran?
  {
    var q := s.requests[i];
    var r := Settled(q.phase.outcome);
    if !LogsIn(q.path, r) then Reply(r)
    else if q.args == [] then None
    else if LoggedIn(server, s, q.session, q.args[0]).1 then Reply(r)
    else Some(FaultAnswer(NoContext))
  }

  lemma DeliveredFinishes(server: Server, s: State, i: nat)
    requires i < |s.requests| && s.requests[i].phase.Ran?
    ensures Delivered(server, s, i).requests == Finish(s, i, FinalAnswer(server, s, i)).requests
  {
  }

  lemma DeliveredSound(server: Server, s: State, i: nat)
    requires AllSound(s) && i < |s.requests| && s.requests[i].phase.Ran?
    ensures AllSound(Delivered(server, s, i)) && Progress(s, Delivered(server, s, i))
  {
    DeliveredFinishes(server, s, i);
  }

  /** A function that has come back is answered, once, unless an authenticator was called
      without arguments and its result, or the exception it raised, counts as a success, or
      the result is a dictionary whose photo cannot be indexed and no login fails first.  Then
      it is never answered. */
  lemma ComesBackAnsweredExactlyWhen(server: Server, s: State, i: nat)
    requires AllSound(s) && i < |s.requests| && s.requests[i].phase.Ran?
    ensures var q, q' := s.requests[i], Delivered(server, s, i).requests[i];
      var r := Settled(q.phase.outcome);
      var login := AuthFunction(q.path) && CountsAsSuccess(q.phase.outcome);
      var refused := login && q.args != [] && !Attach(server, server.order, q.args[0], s.clock, map[]).1;
      && |q'.answers| <= 1
      && (|q'.answers| == 1 <==>
            (login ==> q.args != []) && ((r.value.Dict? && r.value.photo.NotIndexable?) ==> refused))
      && (refused ==> q'.answers == [FaultAnswer(NoContext)])
  {
    DeliveredFinishes(server, s, i);
  }

  /** The answer is the function's: a value that is sent is the value returned, or the one a
      handler carries, with zero for None, or the dictionary that stands for an exception; a
      fault is the one returned, or says that the value cannot be sent, or that a login failed.
      What cannot be sent is what the serializer does not accept, None inside a handler, and a
      photo that is not a string. */
  lemma {:induction false} AnswerIsTheFunctions(server: Server, s: State, i: nat)
    requires AllSound(s) && i < |s.requests| && s.requests[i].phase.Ran?
    requires Delivered(server, s, i).requests[i].answers != []
    ensures var q, r := s.requests[i], Settled(s.requests[i].phase.outcome);
      match Delivered(server, s, i).requests[i].answers[0]
      case ValueAnswer(v) =>
        if r == Direct(Nothing) then v == Plain(false, true)
        else if q.phase.outcome == Raised then v == Dict(true, NoPhoto, true)
        else
          v == r.value && ((v.Plain? && v.sendable) ||
            (v.Dict? && v.sendable && !v.photo.FirstUnsendable? && !v.photo.NotIndexable?))
      case FaultAnswer(code) =>
        || r.value == FaultValue(code)
        || (code == CannotSerialize && r != Direct(Nothing) && q.phase.outcome != Raised &&
             (r.value.Nothing? || (r.value.Plain? && !r.value.sendable) ||
               (r.value.Dict? && (!r.value.sendable || r.value.photo.FirstUnsendable?))))
        || (code == NoContext && AuthFunction(q.path) && CountsAsSuccess(q.phase.outcome) && q.args != [] &&
          AnyRaises(server, server.order, q.args[0], s.clock))
  {
    DeliveredFinishes(server, s, i);
    var q := s.requests[i];
    if LogsIn(q.path, Settled(q.phase.outcome)) && q.args != [] {
      AttachMeans(server, server.order, q.args[0], s.clock, map[]);
    }
  }

  /** The outcomes of an authenticator that count as a success: an exception, a handler, a true
      value, and a dictionary that is not empty.  None, a false value, an empty dictionary and a
      fault do not. */
  predicate CountsAsSuccess(o: Outcome) {
    || o == Raised
    || o.result.Handler?
    || (o.result.value.Plain? && o.result.value.truthy)
    || (o.result.value.Dict? && (o.result.value.others || !o.result.value.photo.NoPhoto?))
  }

  /** An exception is not a fault when it reaches the reply: the login is carried out for it
      too, and otherwise for the values Python takes as true. */
  lemma ExceptionCountsAsLogin(path: string, o: Outcome)
    ensures LogsIn(path, Settled(o)) <==>
      path in {"base.ldapAuth", "base.tokenAuthenticate", "base.authenticate"} && CountsAsSuccess(o)
    ensures forall sendable :: !CountsAsSuccess(Returned(Direct(Plain(false, sendable))))
    ensures forall sendable :: !CountsAsSuccess(Returned(Direct(Dict(false, NoPhoto, sendable))))
    ensures !CountsAsSuccess(Returned(Direct(Nothing)))
    ensures forall code :: !CountsAsSuccess(Returned(Direct(FaultValue(code))))
  {
  }

  /** What a delivery does to its session.  Only an authenticator can touch it, and only one
      whose outcome counts as a success: with a user name the session is then logged in as that
      user, with his contexts, or not logged in if a plugin raises an exception; without one it
      is logged in as it was. */
  lemma OutcomeDecidesLogin(server: Server, s: State, i: nat, o: Outcome)
    requires i < |s.requests| && s.requests[i].phase == Ran(o)
    ensures var q, s' := s.requests[i], Delivered(server, s, i);
      var before, after := SessionOf(s, q.session), SessionOf(s', q.session);
      && (forall id | id != q.session :: SessionOf(s', id) == SessionOf(s, id))
      && (!AuthFunction(q.path) || !CountsAsSuccess(o) ==> after == before)
      && (AuthFunction(q.path) && CountsAsSuccess(o) && q.args == [] ==> after == before.(loggedin := true))
      && (AuthFunction(q.path) && CountsAsSuccess(o) && q.args != [] ==>
            && after.userid == Some(q.args[0])
            && (after.loggedin <==> !AnyRaises(server, server.order, q.args[0], s.clock))
            && (after.loggedin ==> forall m ::
                  (m in after.contexts <==> m in server.order && server.make(m, q.args[0], s.clock).Made?)
                  && (m in after.contexts ==> after.contexts[m] == server.make(m, q.args[0], s.clock).context)))
  {
    var q := s.requests[i];
    ExceptionCountsAsLogin(q.path, o);
    DeliveredOnly(server, s, i);
    DeliveryLogsInExactlyWhen(server, s, i);
    if LogsIn(q.path, Settled(o)) && q.args != [] {
      AttachMeans(server, server.order, q.args[0], s.clock, map[]);
      LoggedInContexts(server, s, q.session, q.args[0]);
    }
  }

  lemma LoggedInContexts(server: Server, s: State, id: SessionId, user: string)
    ensures SessionOf(LoggedIn(server, s, id, user).0, id).contexts ==
      Attach(server, server.order, user, s.clock, map[]).0
  {
  }

  /** One more request, which arrived as `q` and has not been called. */
  predicate Adds(s: State, s': State, q: Request) {
    && |s'.requests| == |s.requests| + 1 && s'.requests == s.requests + [s'.requests[|s.requests|]]
    && Sound(s'.requests[|s.requests|]) && SameArrival(q, s'.requests[|s.requests|])
    && !s'.requests[|s.requests|].phase.Ran?
  }

  lemma LookedUpAdds(server: Server, s: State, q: Request)
    requires q.token && q.trusted && q.phase == Queued && q.runs == 0 && q.answers == []
    ensures Adds(s, LookedUp(server, s, q), q)
  {
  }

  lemma PostedAdds(server: Server, s: State, id: SessionId, path: string, args: seq<string>, token: bool)
    ensures Adds(s, Posted(server, s, id, path, args, token), Arrival(s, server, id, path, args, token))
  {
    var s0 := SetSession(s, id, SessionOf(s, id));
    var q := Arrival(s, server, id, path, args, token);
    if token && q.trusted {
      LookedUpAdds(server, s0, q);
      LookedUpAdds(server, Associated(server, RootSession(s0, id), id, "root").0, q);
    }
  }

  lemma CalledSound(s: State, i: nat, body: Body)
    requires AllSound(s) && InPhase(s, i, Queued)
    ensures AllSound(Called(s, i, body)) && Progress(s, Called(s, i, body))
  {
  }

  lemma ProgressTwice(s: State, s': State, s'': State)
    requires Progress(s, s') && Progress(s', s'')
    ensures Progress(s, s'')
  {
    forall i | 0 <= i < |s.requests| ensures Became(s.requests[i], s''.requests[i]) {
      assert Became(s.requests[i], s'.requests[i]) && Became(s'.requests[i], s''.requests[i]);
    }
  }

  lemma AtOnceSound(server: Server, s: State, i: nat)
    requires AllSound(s) && i < |s.requests|
    ensures AllSound(DeliveredAtOnce(server, s, i)) && Progress(s, DeliveredAtOnce(server, s, i))
  {
    if !server.multithreading && s.requests[i].phase.Ran? { DeliveredSound(server, s, i); }
  }

  lemma CalledAtOnceSound(server: Server, s: State, i: nat, body: Body)
    requires AllSound(s) && i < |s.requests|
    ensures AllSound(CalledAtOnce(server, s, i, body)) && Progress(s, CalledAtOnce(server, s, i, body))
  {
    if !server.multithreading && s.requests[i].phase == Queued {
      CalledSound(s, i, body);
      AtOnceSound(server, Called(s, i, body), i);
      ProgressTwice(s, Called(s, i, body), CalledAtOnce(server, s, i, body));
    }
  }

  lemma StepSound(server: Server, s: State, a: Action)
    requires AllSound(s) && Enabled(server, s, a)
    ensures AllSound(Step(server, s, a)) && Progress(s, Step(server, s, a))
  {
    match a
    case Post(id, path, args, token, body) =>
      var s1 := Posted(server, s, id, path, args, token);
      PostedAdds(server, s, id, path, args, token);
      CalledAtOnceSound(server, s1, |s.requests|, body);
      ProgressTwice(s, s1, Step(server, s, a));
    case Run(i, body) => CalledSound(s, i, body);
    case Fire(i, o) =>
      var s1 := SetRequest(s, i, s.requests[i].(phase := Ran(o)));
      AtOnceSound(server, s1, i);
      ProgressTwice(s, s1, Step(server, s, a));
    case Deliver(i) => DeliveredSound(server, s, i);
  }

  // ----- runs -----

  predicate Runs(server: Server, s: State, run: seq<Action>)
    decreases run
  {
    run == [] || (Enabled(server, s, run[0]) && Runs(server, Step(server, s, run[0]), run[1..]))
  }

  function After(server: Server, s: State, run: seq<Action>): State
    requires Runs(server, s, run)
    decreases run
  {
    if run == [] then s else After(server, Step(server, s, run[0]), run[1..])
  }

  predicate Initial(s: State) { s.sessions.Keys == {} && s.requests == [] }

  lemma {:induction false} RunSound(server: Server, s: State, run: seq<Action>)
    requires AllSound(s) && Runs(server, s, run)
    ensures AllSound(After(server, s, run)) && Progress(s, After(server, s, run))
    decreases run
  {
    if run != [] {
      StepSound(server, s, run[0]);
      RunSound(server, Step(server, s, run[0]), run[1..]);
      ProgressTwice(s, Step(server, s, run[0]), After(server, s, run));
    }
  }

  /** Over every interleaving of requests, calls and completions: no request is answered
      twice, a replied one has been answered and will never change again, no function is
      called twice for a request, and none at all without credentials, without the login it
      needs, or when a security context or the function itself is missing. */
  lemma AnsweredOnceCalledOnce(server: Server, s: State, run: seq<Action>, later: seq<Action>, i: nat)
    requires Initial(s) && Runs(server, s, run) && Runs(server, After(server, s, run), later)
    requires i < |After(server, s, run).requests|
    ensures var q := After(server, s, run).requests[i];
      && |q.answers| <= 1 && q.runs <= 1
      && (q.phase.Replied? <==> |q.answers| == 1)
      && (q.runs == 1 ==> q.token && q.trusted)
      && (q.answers != [] && q.runs == 0 ==> q.answers[0].FaultAnswer? && Refusal(q, q.answers[0].code))
      && i < |After(server, After(server, s, run), later).requests|
      && (Over(q) ==> After(server, After(server, s, run), later).requests[i] == q)
  {
    RunSound(server, s, run);
    RunSound(server, After(server, s, run), later);
    assert Sound(After(server, s, run).requests[i]);
  }

  // ----- where outcomes come from -----

  function OutcomeOf(q: Request): Option<Outcome> {
    match q.phase
    case Ran(o) => Some(o)
    case Replied(of) => of
    case Dropped(of) => of
    case _ => None
  }

  /** The action calls the function of request `i`, or completes its Deferred, with `o`. */
  predicate Brings(server: Server, s: State, a: Action, i: nat, o: Outcome) {
    match a
    case Post(id, path, args, token, body) =>
      && i == |s.requests| && !server.multithreading && body == Done(o)
      && InPhase(Posted(server, s, id, path, args, token), i, Queued)
    case Run(j, body) => i == j && body == Done(o)
    case Fire(j, outcome) => i == j && outcome == o
    case Deliver(_) => false
  }

  lemma DeliveredOutcome(server: Server, s: State, i: nat, k: nat)
    requires i < |s.requests| && s.requests[i].phase.Ran? && k < |s.requests|
    ensures |Delivered(server, s, i).requests| == |s.requests|
    ensures OutcomeOf(Delivered(server, s, i).requests[k]) == OutcomeOf(s.requests[k])
  {
    DeliveredFinishes(server, s, i);
  }

  lemma CalledAtOnceOutcome(server: Server, s: State, i: nat, body: Body, k: nat)
    requires i < |s.requests| && k < |s.requests|
    ensures |CalledAtOnce(server, s, i, body).requests| == |s.requests|
    ensures OutcomeOf(CalledAtOnce(server, s, i, body).requests[k]) ==
      if k == i && !server.multithreading && s.requests[i].phase == Queued then
        match body case Done(o) => Some(o) case Later => None
      else OutcomeOf(s.requests[k])
  {
    if !server.multithreading && s.requests[i].phase == Queued {
      var s1 := Called(s, i, body);
      if s1.requests[i].phase.Ran? { DeliveredOutcome(server, s1, i, k); }
    }
  }

  /** The outcome a request is delivered or answered with is the one its function, or the
      Deferred that the function returned, came to, and none other. */
  lemma OutcomeIsTheFunctions(server: Server, s: State, a: Action, i: nat, o: Outcome)
    requires AllSound(s) && Enabled(server, s, a) && i < |Step(server, s, a).requests|
    ensures OutcomeOf(Step(server, s, a).requests[i]) == Some(o) <==>
      (i < |s.requests| && OutcomeOf(s.requests[i]) == Some(o)) || Brings(server, s, a, i, o)
  {
    match a
    case Post(id, path, args, token, body) =>
      var s1 := Posted(server, s, id, path, args, token);
      PostedAdds(server, s, id, path, args, token);
      PostedOutcome(server, s, id, path, args, token);
      CalledAtOnceOutcome(server, s1, |s.requests|, body, i);
    case Run(_, _) =>
    case Fire(j, outcome) =>
      var s1 := SetRequest(s, j, s.requests[j].(phase := Ran(outcome)));
      if !server.multithreading { DeliveredOutcome(server, s1, j, i); }
    case Deliver(j) => DeliveredOutcome(server, s, j, i);
  }

  lemma PostedOutcome(server: Server, s: State, id: SessionId, path: string, args: seq<string>, token: bool)
    ensures var s' := Posted(server, s, id, path, args, token);
      |s'.requests| == |s.requests| + 1 && OutcomeOf(s'.requests[|s.requests|]) == None
  {
  }

  // ----- sessions -----

  /** The contexts attached to a session are all those the plugins made for its user, on one
      occasion on which none of them failed. */
  ghost predicate Built(server: Server, session: Session) {
    session.userid.Some? && exists t: nat ::
      Attach(server, server.order, session.userid.value, t, map[]) == (session.contexts, true)
  }

  ghost predicate Established(server: Server, s: State, id: SessionId) {
    Built(server, SessionOf(s, id)) && id in s.known
  }

  ghost predicate SessionOk(server: Server, s: State, id: SessionId) {
    SessionOf(s, id).loggedin ==> Established(server, s, id)
  }

  ghost predicate SessionsOk(server: Server, s: State) {
    forall id :: SessionOk(server, s, id)
  }

  predicate AnyRaises(server: Server, mods: seq<string>, user: string, t: nat) {
    exists i | 0 <= i < |mods| :: server.make(mods[i], user, t) == MakerRaises
  }

  lemma {:induction false} AttachStep(server: Server, mods: seq<string>, user: string, t: nat,
      contexts: map<string, nat>)
    requires mods != []
    ensures Attach(server, mods, user, t, contexts) ==
      match server.make(mods[0], user, t)
      case MakerRaises => (contexts, false)
      case Made(c) => Attach(server, mods[1..], user, t, contexts[mods[0] := c])
      case _ => Attach(server, mods[1..], user, t, contexts)
  {
  }

  /** Attaching succeeds exactly when no plugin raises an exception, and then gives exactly
      the contexts that were made. */
  lemma {:induction false} AttachMeans(server: Server, mods: seq<string>, user: string, t: nat,
      contexts: map<string, nat>)
    ensures Attach(server, mods, user, t, contexts).1 <==> !AnyRaises(server, mods, user, t)
    ensures !AnyRaises(server, mods, user, t) ==> forall m ::
      (m in Attach(server, mods, user, t, contexts).0 <==>
        m in contexts || (m in mods && server.make(m, user, t).Made?))
      && (m in mods && server.make(m, user, t).Made? ==>
        Attach(server, mods, user, t, contexts).0[m] == server.make(m, user, t).context)
      && (m in contexts && !(m in mods && server.make(m, user, t).Made?) ==>
        Attach(server, mods, user, t, contexts).0[m] == contexts[m])
    decreases mods
  {
    if mods != [] {
      AttachStep(server, mods, user, t, contexts);
      var made := server.make(mods[0], user, t);
      if made.MakerRaises? {
        assert AnyRaises(server, mods, user, t);
      } else {
        AttachMeans(server, mods[1..], user, t, if made.Made? then contexts[mods[0] := made.context] else contexts);
        assert AnyRaises(server, mods, user, t) <==> AnyRaises(server, mods[1..], user, t) by {
          assert forall i | 1 <= i < |mods| :: mods[i] == mods[1..][i - 1];
          assert forall i | 0 <= i < |mods| - 1 :: mods[1..][i] == mods[i + 1];
        }
        assert forall m :: m in mods <==> m == mods[0] || m in mods[1..];
      }
    }
  }

  /** A step that touches at most one session, and never forgets one. */
  ghost predicate OnlySession(s: State, s': State, id: SessionId) {
    s.known <= s'.known && forall o :: o != id ==> SessionOf(s', o) == SessionOf(s, o)
  }

  lemma OneSessionAtATime(server: Server, s: State, s': State, id: SessionId)
    requires SessionsOk(server, s) && OnlySession(s, s', id) && SessionOk(server, s', id)
    ensures SessionsOk(server, s')
  {
    forall o ensures SessionOk(server, s', o) {
      if o != id { assert SessionOk(server, s, o); }
    }
  }

  lemma AssociatedSession(server: Server, s: State, id: SessionId, user: string)
    ensures var (s', ok) := Associated(server, s, id, user);
      && OnlySession(s, s', id) && s'.requests == s.requests
      && SessionOf(s', id).loggedin == SessionOf(s, id).loggedin && SessionOf(s', id).userid == SessionOf(s, id).userid
      && ok == Attach(server, server.order, user, s.clock, map[]).1
      && (ok && SessionOf(s, id).userid == Some(user) ==> Established(server, s', id))
  {
  }

  lemma {:induction false} PostedSession(server: Server, s: State, id: SessionId, path: string, args: seq<string>,
      token: bool)
    requires SessionsOk(server, s)
    ensures var s' := Posted(server, s, id, path, args, token); OnlySession(s, s', id) && SessionOk(server, s', id)
  {
    assert SessionOk(server, s, id);
    if token && !SessionOf(s, id).loggedin && !NeedAuth(server, path) {
      var s0 := RootSession(SetSession(s, id, SessionOf(s, id)), id);
      AssociatedSession(server, s0, id, "root");
    }
  }

  lemma LoggedInSession(server: Server, s: State, id: SessionId, user: string)
    ensures var (s', ok) := LoggedIn(server, s, id, user);
      && OnlySession(s, s', id) && SessionOk(server, s', id)
      && ok == Attach(server, server.order, user, s.clock, map[]).1
      && SessionOf(s', id).loggedin == ok && SessionOf(s', id).userid == Some(user)
  {
    var s1 := SetSession(s, id, SessionOf(s, id).(loggedin := true, userid := Some(user)));
    AssociatedSession(server, s1, id, user);
  }

  predicate BareLogin(q: Request, o: Outcome) { q.args == [] && AuthFunction(q.path) && CountsAsSuccess(o) }

  lemma FinishSession(s: State, i: nat, answer: Option<Answer>, id: SessionId)
    requires i < |s.requests| && s.requests[i].phase.Ran?
    ensures OnlySession(s, Finish(s, i, answer), id) && SessionOf(Finish(s, i, answer), id) == SessionOf(s, id)
    ensures Finish(s, i, answer).known == s.known
  {
  }

  /** Delivering a result leaves its session with the contexts of its user if it is logged in,
      unless an authenticator that was called without arguments logs in a session that did not
      have them. */
  lemma LoginNeedsItsArgument(server: Server, s: State, i: nat)
    requires SessionsOk(server, s) && i < |s.requests| && s.requests[i].phase.Ran?
    ensures var q, s' := s.requests[i], Delivered(server, s, i);
      && OnlySession(s, s', q.session)
      && (SessionOk(server, s', q.session) <==> (BareLogin(q, q.phase.outcome) ==> Established(server, s, q.session)))
  {
    var q := s.requests[i];
    var id := q.session;
    var r := Settled(q.phase.outcome);
    assert SessionOk(server, s, id);
    if !LogsIn(q.path, r) {
      FinishSession(s, i, Reply(r), id);
    } else if q.args == [] {
      var s1 := SetSession(s, id, SessionOf(s, id).(loggedin := true));
      FinishSession(s1, i, None, id);
      assert SessionOf(Delivered(server, s, i), id) == SessionOf(s, id).(loggedin := true);
    } else {
      var (s1, ok) := LoggedIn(server, s, id, q.args[0]);
      LoggedInSession(server, s, id, q.args[0]);
      FinishSession(s1, i, if ok then Reply(r) else Some(FaultAnswer(NoContext)), id);
    }
  }

  /** A session becomes, or stays, logged in by a delivery exactly when the login is carried
      out with a user name and every plugin gives its context, or without one; its user is
      then the first argument. */
  lemma DeliveryLogsInExactlyWhen(server: Server, s: State, i: nat)
    requires i < |s.requests| && s.requests[i].phase.Ran?
    ensures var q, s' := s.requests[i], Delivered(server, s, i);
      var before, after := SessionOf(s, q.session), SessionOf(s', q.session);
      if !AuthFunction(q.path) || !CountsAsSuccess(q.phase.outcome) then after == before
      else if q.args == [] then after == before.(loggedin := true)
      else
        && (after.loggedin <==> !AnyRaises(server, server.order, q.args[0], s.clock))
        && after.userid == Some(q.args[0])
  {
    var q := s.requests[i];
    if LogsIn(q.path, Settled(q.phase.outcome)) && q.args != [] {
      LoggedInSession(server, s, q.session, q.args[0]);
      AttachMeans(server, server.order, q.args[0], s.clock, map[]);
    }
  }

  // ----- sessions over runs -----

  predicate ProperRequest(path: string, args: seq<string>) { AuthFunction(path) ==> args != [] }

  predicate AllProper(s: State) {
    forall i | 0 <= i < |s.requests| :: ProperRequest(s.requests[i].path, s.requests[i].args)
  }

  predicate ProperAction(a: Action) { a.Post? ==> ProperRequest(a.path, a.args) }

  ghost predicate SessionInv(server: Server, s: State) { SessionsOk(server, s) && AllProper(s) }

  lemma ProperKept(s: State, s': State)
    requires AllProper(s) && Progress(s, s') && |s'.requests| == |s.requests|
    ensures AllProper(s')
  {
    forall i | 0 <= i < |s'.requests| ensures ProperRequest(s'.requests[i].path, s'.requests[i].args) {
      assert Became(s.requests[i], s'.requests[i]);
    }
  }

  lemma DeliveredKeeps(server: Server, s: State, i: nat)
    requires SessionInv(server, s) && AllSound(s) && i < |s.requests| && s.requests[i].phase.Ran?
    ensures SessionInv(server, Delivered(server, s, i))
  {
    LoginNeedsItsArgument(server, s, i);
    OneSessionAtATime(server, s, Delivered(server, s, i), s.requests[i].session);
    DeliveredSound(server, s, i);
    DeliveredFinishes(server, s, i);
    ProperKept(s, Delivered(server, s, i));
  }

  /** A step that changes nothing but how far a request has come. */
  lemma RequestOnlyKeeps(server: Server, s: State, s': State)
    requires SessionInv(server, s) && s'.sessions == s.sessions && s'.known == s.known
    requires Progress(s, s') && |s'.requests| == |s.requests|
    ensures SessionInv(server, s')
  {
    ProperKept(s, s');
    forall id ensures SessionOk(server, s', id) {
      assert SessionOk(server, s, id) && SessionOf(s', id) == SessionOf(s, id);
    }
  }

  lemma CalledKeeps(server: Server, s: State, i: nat, body: Body)
    requires SessionInv(server, s) && AllSound(s) && InPhase(s, i, Queued)
    ensures SessionInv(server, Called(s, i, body))
  {
    CalledSound(s, i, body);
    RequestOnlyKeeps(server, s, Called(s, i, body));
  }

  lemma AtOnceKeeps(server: Server, s: State, i: nat)
    requires SessionInv(server, s) && AllSound(s) && i < |s.requests|
    ensures SessionInv(server, DeliveredAtOnce(server, s, i))
  {
    if !server.multithreading && s.requests[i].phase.Ran? { DeliveredKeeps(server, s, i); }
  }

  lemma CalledAtOnceKeeps(server: Server, s: State, i: nat, body: Body)
    requires SessionInv(server, s) && AllSound(s) && i < |s.requests|
    ensures SessionInv(server, CalledAtOnce(server, s, i, body))
  {
    if !server.multithreading && s.requests[i].phase == Queued {
      CalledKeeps(server, s, i, body);
      CalledSound(s, i, body);
      AtOnceKeeps(server, Called(s, i, body), i);
    }
  }

  lemma PostedKeeps(server: Server, s: State, id: SessionId, path: string, args: seq<string>, token: bool)
    requires SessionInv(server, s) && AllSound(s) && ProperRequest(path, args)
    ensures SessionInv(server, Posted(server, s, id, path, args, token)) &&
      AllSound(Posted(server, s, id, path, args, token))
  {
    var s' := Posted(server, s, id, path, args, token);
    PostedSession(server, s, id, path, args, token);
    OneSessionAtATime(server, s, s', id);
    PostedAdds(server, s, id, path, args, token);
  }

  lemma StepKeepsSessions(server: Server, s: State, a: Action)
    requires SessionInv(server, s) && AllSound(s) && Enabled(server, s, a) && ProperAction(a)
    ensures SessionInv(server, Step(server, s, a))
  {
    match a
    case Post(id, path, args, token, body) =>
      PostedKeeps(server, s, id, path, args, token);
      PostedAdds(server, s, id, path, args, token);
      CalledAtOnceKeeps(server, Posted(server, s, id, path, args, token), |s.requests|, body);
    case Run(i, body) => CalledKeeps(server, s, i, body);
    case Fire(i, o) =>
      var s1 := SetRequest(s, i, s.requests[i].(phase := Ran(o)));
      RequestOnlyKeeps(server, s, s1);
      AtOnceKeeps(server, s1, i);
    case Deliver(i) => DeliveredKeeps(server, s, i);
  }

  lemma {:induction false} RunKeepsSessions(server: Server, s: State, run: seq<Action>)
    requires SessionInv(server, s) && AllSound(s) && Runs(server, s, run) && forall a | a in run :: ProperAction(a)
    ensures SessionInv(server, After(server, s, run))
    decreases run
  {
    if run != [] {
      assert run[0] in run && forall a | a in run[1..] :: a in run;
      StepSound(server, s, run[0]);
      StepKeepsSessions(server, s, run[0]);
      RunKeepsSessions(server, Step(server, s, run[0]), run[1..]);
    }
  }

  /** Over every interleaving, as long as no authenticator is called without arguments: a
      session that is logged in has a user, is one of the known sessions, and carries exactly
      the contexts that every plugin made for that very user. */
  lemma LoggedInMeansContexts(server: Server, s: State, run: seq<Action>, id: SessionId)
    requires Initial(s) && Runs(server, s, run) && forall a | a in run :: ProperAction(a)
    requires SessionOf(After(server, s, run), id).loggedin
    ensures id in After(server, s, run).known
    ensures var session := SessionOf(After(server, s, run), id);
      && session.userid.Some?
      && exists t: nat ::
           && !AnyRaises(server, server.order, session.userid.value, t)
           && forall m ::
                (m in session.contexts <==> m in server.order && server.make(m, session.userid.value, t).Made?)
                && (m in session.contexts ==> session.contexts[m] == server.make(m, session.userid.value, t).context)
  {
    assert SessionsOk(server, s);
    RunKeepsSessions(server, s, run);
    assert SessionOk(server, After(server, s, run), id);
    var session := SessionOf(After(server, s, run), id);
    var t: nat :| Attach(server, server.order, session.userid.value, t, map[]) == (session.contexts, true);
    AttachMeans(server, server.order, session.userid.value, t, map[]);
    assert !AnyRaises(server, server.order, session.userid.value, t);
  }

  // ----- who logged in -----

  /** An authenticator called for the session, with a result that counts as a success. */
  predicate LoginRequest(q: Request, id: SessionId) {
    && q.session == id && AuthFunction(q.path) && q.token && q.trusted && q.runs == 1
    && (q.phase.Replied? || q.phase.Dropped?) && q.phase.of.Some? && CountsAsSuccess(q.phase.of.value)
  }

  ghost predicate HasLoggedIn(s: State, id: SessionId) {
    exists i | 0 <= i < |s.requests| :: LoginRequest(s.requests[i], id) &&
      (s.requests[i].args == [] || SessionOf(s, id).userid == Some(s.requests[i].args[0]))
  }

  ghost predicate LoginOk(s: State, id: SessionId) {
    SessionOf(s, id).loggedin ==> HasLoggedIn(s, id)
  }

  ghost predicate LoginsOk(s: State) {
    forall id :: LoginOk(s, id)
  }

  lemma LoginStays(s: State, s': State, id: SessionId)
    requires LoginOk(s, id) && Progress(s, s') && SessionOf(s', id) == SessionOf(s, id)
    ensures LoginOk(s', id)
  {
    if SessionOf(s', id).loggedin {
      var i :| 0 <= i < |s.requests| && LoginRequest(s.requests[i], id) &&
        (s.requests[i].args == [] || SessionOf(s, id).userid == Some(s.requests[i].args[0]));
      assert Became(s.requests[i], s'.requests[i]);
    }
  }

  /** Logins of the other sessions are not affected. */
  lemma OneLoginAtATime(s: State, s': State, id: SessionId)
    requires LoginsOk(s) && Progress(s, s') && OnlySession(s, s', id) && LoginOk(s', id)
    ensures LoginsOk(s')
  {
    forall o ensures LoginOk(s', o) {
      if o != id {
        assert LoginOk(s, o);
        LoginStays(s, s', o);
      }
    }
  }

  lemma DeliveredOnly(server: Server, s: State, i: nat)
    requires i < |s.requests| && s.requests[i].phase.Ran?
    ensures OnlySession(s, Delivered(server, s, i), s.requests[i].session)
  {
    var q := s.requests[i];
    if LogsIn(q.path, Settled(q.phase.outcome)) && q.args != [] {
      LoggedInSession(server, s, q.session, q.args[0]);
    }
  }

  lemma DeliveredLogin(server: Server, s: State, i: nat)
    requires LoginsOk(s) && AllSound(s) && i < |s.requests| && s.requests[i].phase.Ran?
    ensures LoginsOk(Delivered(server, s, i))
  {
    var q, s' := s.requests[i], Delivered(server, s, i);
    DeliveredSound(server, s, i);
    DeliveredFinishes(server, s, i);
    DeliveredOnly(server, s, i);
    DeliveryLogsInExactlyWhen(server, s, i);
    assert LoginOk(s, q.session);
    assert Sound(q);
    ExceptionCountsAsLogin(q.path, q.phase.outcome);
    if LogsIn(q.path, Settled(q.phase.outcome)) {
      assert LoginRequest(s'.requests[i], q.session);
    } else {
      LoginStays(s, s', q.session);
    }
    OneLoginAtATime(s, s', q.session);
  }

  lemma PostedLogin(server: Server, s: State, id: SessionId, path: string, args: seq<string>, token: bool)
    requires LoginsOk(s) && SessionsUntouchedByPost(server, s, id, path, args, token)
    ensures LoginsOk(Posted(server, s, id, path, args, token))
  {
    var s' := Posted(server, s, id, path, args, token);
    PostedAdds(server, s, id, path, args, token);
    assert LoginOk(s, id);
    if SessionOf(s, id).loggedin { LoginStays(s, s', id); }
    OneLoginAtATime(s, s', id);
  }

  /** A request that arrives logs nobody in, and changes nothing of a session logged in. */
  ghost predicate SessionsUntouchedByPost(server: Server, s: State, id: SessionId, path: string, args: seq<string>,
      token: bool)
  {
    var s' := Posted(server, s, id, path, args, token);
    && OnlySession(s, s', id) && SessionOf(s', id).loggedin == SessionOf(s, id).loggedin
    && (SessionOf(s, id).loggedin ==> SessionOf(s', id) == SessionOf(s, id))
  }

  lemma PostTouchesNoLogin(server: Server, s: State, id: SessionId, path: string, args: seq<string>, token: bool)
    ensures SessionsUntouchedByPost(server, s, id, path, args, token)
  {
    if token && !SessionOf(s, id).loggedin && !NeedAuth(server, path) {
      var s0 := RootSession(SetSession(s, id, SessionOf(s, id)), id);
      AssociatedSession(server, s0, id, "root");
    }
  }

  lemma RequestOnlyKeepsLogins(s: State, s': State)
    requires LoginsOk(s) && s'.sessions == s.sessions && Progress(s, s')
    ensures LoginsOk(s')
  {
    forall id ensures LoginOk(s', id) {
      assert LoginOk(s, id);
      LoginStays(s, s', id);
    }
  }

  lemma CalledLogin(s: State, i: nat, body: Body)
    requires LoginsOk(s) && AllSound(s) && InPhase(s, i, Queued)
    ensures LoginsOk(Called(s, i, body))
  {
    CalledSound(s, i, body);
    RequestOnlyKeepsLogins(s, Called(s, i, body));
  }

  lemma AtOnceLogin(server: Server, s: State, i: nat)
    requires LoginsOk(s) && AllSound(s) && i < |s.requests|
    ensures LoginsOk(DeliveredAtOnce(server, s, i))
  {
    if !server.multithreading && s.requests[i].phase.Ran? { DeliveredLogin(server, s, i); }
  }

  lemma CalledAtOnceLogin(server: Server, s: State, i: nat, body: Body)
    requires LoginsOk(s) && AllSound(s) && i < |s.requests|
    ensures LoginsOk(CalledAtOnce(server, s, i, body))
  {
    if !server.multithreading && s.requests[i].phase == Queued {
      CalledLogin(s, i, body);
      CalledSound(s, i, body);
      AtOnceLogin(server, Called(s, i, body), i);
    }
  }

  lemma StepKeepsLogins(server: Server, s: State, a: Action)
    requires LoginsOk(s) && AllSound(s) && Enabled(server, s, a)
    ensures LoginsOk(Step(server, s, a))
  {
    match a
    case Post(id, path, args, token, body) =>
      var s1 := Posted(server, s, id, path, args, token);
      PostTouchesNoLogin(server, s, id, path, args, token);
      PostedLogin(server, s, id, path, args, token);
      PostedAdds(server, s, id, path, args, token);
      CalledAtOnceLogin(server, s1, |s.requests|, body);
    case Run(i, body) => CalledLogin(s, i, body);
    case Fire(i, o) =>
      var s1 := SetRequest(s, i, s.requests[i].(phase := Ran(o)));
      RequestOnlyKeepsLogins(s, s1);
      AtOnceLogin(server, s1, i);
    case Deliver(i) => DeliveredLogin(server, s, i);
  }

  lemma {:induction false} RunKeepsLogins(server: Server, s: State, run: seq<Action>)
    requires AllSound(s) && LoginsOk(s) && Runs(server, s, run)
    ensures LoginsOk(After(server, s, run))
    decreases run
  {
    if run != [] {
      StepSound(server, s, run[0]);
      StepKeepsLogins(server, s, run[0]);
      RunKeepsLogins(server, Step(server, s, run[0]), run[1..]);
    }
  }

  /** In every run, whatever is posted in it: a session that is logged in has had a call of an
      authenticator, made with the right credentials, whose outcome counts as a success, with
      the session's user as first argument, or with no arguments. */
  lemma LoggedInMeansLogin(server: Server, s: State, run: seq<Action>, id: SessionId)
    requires Initial(s) && Runs(server, s, run)
    requires SessionOf(After(server, s, run), id).loggedin
    ensures HasLoggedIn(After(server, s, run), id)
  {
    assert LoginsOk(s);
    RunKeepsLogins(server, s, run);
    assert LoginOk(After(server, s, run), id);
  }

  lemma {:induction false} AttachAlone(server: Server, m: string, user: string, t: nat)
    requires server.order == [m]
    ensures Attach(server, server.order, user, t, map[]) ==
      match server.make(m, user, t)
      case MakerRaises => (map[], false)
      case Made(c) => (map[m := c], true)
      case _ => (map[], true)
  {
    assert [m][1..] == [];
  }

  /** The contexts of `id` are gone: the second of two occasions failed. */
  ghost predicate Bereft(server: Server, s: State, id: SessionId, m: string) {
    && SessionOf(s, id).userid == Some("root") && m !in SessionOf(s, id).contexts
    && server.order == [m] && forall u, t: nat :: server.make(m, u, t) == if t == 1 then MakerRaises else Made(0)
  }

  lemma BereftIsNotBuilt(server: Server, s: State, id: SessionId, m: string)
    requires Bereft(server, s, id, m)
    ensures !Built(server, SessionOf(s, id))
  {
    forall t: nat ensures Attach(server, server.order, "root", t, map[]) != (SessionOf(s, id).contexts, true) {
      AttachAlone(server, m, "root", t);
    }
  }

  lemma SecondPostBereaves(server: Server, s: State, path: string, m: string)
    requires server.order == [m] && forall u, t: nat :: server.make(m, u, t) == if t == 1 then MakerRaises else Made(0)
    requires s.clock == 1 && !SessionOf(s, 0).loggedin && !NeedAuth(server, path)
    ensures var s' := Posted(server, s, 0, path, [], true);
      && Bereft(server, s', 0, m) && s'.requests == s.requests + [s'.requests[|s.requests|]] && 0 in s'.sessions
  {
    AttachAlone(server, m, "root", 1);
  }

  lemma FirstPostQueues(server: Server, s: State, path: string, m: string)
    requires server.order == [m] && forall u, t: nat :: server.make(m, u, t) == if t == 1 then MakerRaises else Made(0)
    requires Initial(s) && s.clock == 0 && !NeedAuth(server, path) && FindFunction(server, path).Found?
    ensures var s' := Posted(server, s, 0, path, [], true);
      && s'.clock == 1 && !SessionOf(s', 0).loggedin && |s'.requests| == 1
      && s'.requests[0] == Request(0, path, [], true, true, Queued, 0, [])
  {
    AttachAlone(server, m, "root", 0);
  }

  /** The condition is needed.  An authenticator open to all is called without arguments and
      raises an exception; before that is delivered, a second request of the session finds that
      a plugin has no context to give.  The session ends up logged in without contexts. */
  lemma {:induction false} LoggedInWithoutContexts(server: Server, s: State, path: string, m: string)
    requires server.order == [m] && forall u, t: nat :: server.make(m, u, t) == if t == 1 then MakerRaises else Made(0)
    requires server.multithreading && AuthFunction(path) && !NeedAuth(server, path) && FindFunction(server, path).Found?
    requires Initial(s) && s.clock == 0
    ensures exists run :: Runs(server, s, run) && !SessionOk(server, After(server, s, run), 0)
  {
    var post, call := Post(0, path, [], true, Later), Run(0, Done(Raised));
    var s1 := Posted(server, s, 0, path, [], true);
    FirstPostQueues(server, s, path, m);
    var s2 := Called(s1, 0, Done(Raised));
    var s3 := Posted(server, s2, 0, path, [], true);
    SecondPostBereaves(server, s2, path, m);
    BereftIsNotBuilt(server, s3, 0, m);
    assert s3.requests[0] == s2.requests[0];
    LoginOfBereft(server, s3, m);
    FourSteps(server, [s, s1, s2, s3, Delivered(server, s3, 0)], [post, call, post, Deliver(0)]);
  }

  lemma LoginOfBereft(server: Server, s: State, m: string)
    requires Bereft(server, s, 0, m) && !Built(server, SessionOf(s, 0))
    requires s.requests != [] && s.requests[0].session == 0 && s.requests[0].phase == Ran(Raised)
    requires s.requests[0].args == [] && AuthFunction(s.requests[0].path)
    ensures !SessionOk(server, Delivered(server, s, 0), 0)
  {
    var s' := Delivered(server, s, 0);
    assert SessionOf(s', 0) == SessionOf(s, 0).(loggedin := true);
  }

  predicate Leads(server: Server, s: State, a: Action, s': State) {
    Enabled(server, s, a) && Step(server, s, a) == s'
  }

  lemma FourSteps(server: Server, s: seq<State>, run: seq<Action>)
    requires |s| == 5 && |run| == 4 && forall i | 0 <= i < 4 :: Leads(server, s[i], run[i], s[i + 1])
    ensures Runs(server, s[0], run) && After(server, s[0], run) == s[4]
  {
    OneStep(server, s[3], run[3], [], s[4]);
    OneStep(server, s[2], run[2], run[3..], s[3]);
    OneStep(server, s[1], run[1], run[2..], s[2]);
    OneStep(server, s[0], run[0], run[1..], s[1]);
    assert run[3..] == [run[3]] + [] && run[2..] == [run[2]] + run[3..];
    assert run[1..] == [run[1]] + run[2..] && run == [run[0]] + run[1..];
  }

  lemma OneStep(server: Server, s: State, a: Action, rest: seq<Action>, s': State)
    requires Leads(server, s, a, s') && Runs(server, s', rest)
    ensures Runs(server, s, [a] + rest) && After(server, s, [a] + rest) == After(server, s', rest)
  {
    assert ([a] + rest)[1..] == rest;
  }

  // ----- what is decided on arrival -----

  /** A request gets as far as its function exactly when the connection's credentials are
      right, the session is logged in or the function is open to all, a session not logged in
      can be given the contexts of "root", and the function exists. */
  lemma QueuedExactlyWhen(server: Server, s: State, id: SessionId, path: string, args: seq<string>, token: bool)
    ensures var s' := Posted(server, s, id, path, args, token);
      |s'.requests| == |s.requests| + 1 &&
      var q := s'.requests[|s.requests|];
      && q.path == path && q.args == args && q.session == id && q.token == token
      && (q.trusted <==> SessionOf(s, id).loggedin || !NeedAuth(server, path))
      && (q.phase.Queued? <==>
            && token && q.trusted && FindFunction(server, path).Found?
            && (SessionOf(s, id).loggedin || !AnyRaises(server, server.order, "root", s.clock)))
  {
    AttachMeans(server, server.order, "root", s.clock, map[]);
    PostedAdds(server, s, id, path, args, token);
  }

  /** What becomes of a request on arrival that does not get as far as its function: the first
      check that fails decides the fault it is answered with, and a plugin that is not there
      leaves it without an answer. */
  lemma RefusedWith(server: Server, s: State, id: SessionId, path: string, args: seq<string>, token: bool)
    ensures var s' := Posted(server, s, id, path, args, token);
      |s'.requests| == |s.requests| + 1 &&
      var q, known := s'.requests[|s.requests|], SessionOf(s, id).loggedin;
      var bereft := !known && AnyRaises(server, server.order, "root", s.clock);
      && q.answers == (
           if !token then [FaultAnswer(Unauthorized)]
           else if !known && NeedAuth(server, path) then [FaultAnswer(NeedsAuthentication)]
           else if bereft then [FaultAnswer(NoContext)]
           else if FindFunction(server, path) == Missing then [FaultAnswer(NoSuchFunction)]
           else [])
      && (q.phase.Crashed? <==>
            token && (known || !NeedAuth(server, path)) && !bereft && FindFunction(server, path) == LookupRaises)
  {
    AttachMeans(server, server.order, "root", s.clock, map[]);
  }

  /** A session not logged in that calls a function open to all becomes that of "root", with
      the contexts made for "root"; in all other cases the request leaves it as it was. */
  lemma CallsAsRoot(server: Server, s: State, id: SessionId, path: string, args: seq<string>, token: bool)
    ensures var before, after := SessionOf(s, id), SessionOf(Posted(server, s, id, path, args, token), id);
      if token && !before.loggedin && !NeedAuth(server, path) then
        && !after.loggedin && after.userid == Some("root")
        && (!AnyRaises(server, server.order, "root", s.clock) ==> forall m ::
              (m in after.contexts <==> m in server.order && server.make(m, "root", s.clock).Made?)
              && (m in after.contexts ==> after.contexts[m] == server.make(m, "root", s.clock).context))
      else after == before
  {
    AttachMeans(server, server.order, "root", s.clock, map[]);
    if token && !SessionOf(s, id).loggedin && !NeedAuth(server, path) {
      var s0 := RootSession(SetSession(s, id, SessionOf(s, id)), id);
      assert SessionOf(Associated(server, s0, id, "root").0, id).contexts ==
        Attach(server, server.order, "root", s.clock, map[]).0;
    }
  }

  /** Where a function is looked for: in the server itself when the path names no plugin, or
      "system", and else in the plugin named and then in its proxy.  A plugin that is not there
      is an exception, not a function that is missing. */
  lemma LookedForInThePlugin(server: Server, mod: string, func: string)
    requires '.' !in mod
    ensures FindFunction(server, mod + "." + func) ==
      if mod == "" || mod == "system" then if func in server.own then Found else Missing
      else if mod !in server.plugins then LookupRaises
      else if func in server.plugins[mod].functions then Found
      else
        match server.plugins[mod].proxy
        case Some(methods) => if func in methods then Found else Missing
        case None => Missing
  {
    SplitIsUnique(mod, func);
  }

  lemma LookedForInTheServer(server: Server, path: string)
    requires '.' !in path
    ensures FindFunction(server, path) == if path in server.own then Found else Missing
  {
    assert forall k | 0 <= k < |path| :: path[k] in path;
  }

  lemma SplitIsUnique(mod: string, func: string)
    requires '.' !in mod
    ensures SplitPath(mod + "." + func) == (Some(mod), func)
  {
    var path := mod + "." + func;
    var i := FirstDot(path);
    assert path[|mod|] == '.';
    assert forall k | 0 <= k < |mod| :: path[k] == mod[k];
    assert forall k | 0 <= k < i :: path[k] in path[..i];
    assert path[..i] == mod && path[i + 1..] == func;
  }

  /** The functions open to all are those a plugin lists, under the plugin's name, and the one
      that reloads the configuration. */
  lemma OpenToAllExactlyWhen(server: Server, path: string)
    ensures !NeedAuth(server, path) <==>
      exists mod, func :: '.' !in mod && path == mod + "." + func && Open(server, mod, func)
  {
    var i := FirstDot(path);
    if i < |path| {
      assert path == path[..i] + "." + path[i + 1..];
      assert Open(server, path[..i], path[i + 1..]) <==> !NeedAuth(server, path);
    }
    forall mod, func | '.' !in mod && path == mod + "." + func && Open(server, mod, func)
      ensures !NeedAuth(server, path)
    {
      SplitIsUnique(mod, func);
    }
  }

  predicate Open(server: Server, mod: string, func: string) {
    || (mod == "system" && func == "reloadModulesConfiguration")
    || (mod != "" && mod in server.plugins && server.plugins[mod].open.Some? && func in server.plugins[mod].open.value)
  }

  // ----- the server -----

  class MmcServer {
    const server: Server
    var clock: nat
    var sessions: map<SessionId, Session>
    var known: set<SessionId>
    var requests: seq<Request>

    function View(): State
      reads this
    {
      State(clock, sessions, known, requests)
    }

    constructor (server: Server)
      ensures this.server == server && Initial(View())
    {
      this.server := server;
      clock, sessions, known, requests := 0, map[], {}, [];
    }

    function Current(id: SessionId): Session
      reads this
    {
      SessionOf(View(), id)
    }

    /** `_associateContext`; false if a context maker raised an exception. */
    method AssociateContext(id: SessionId, userid: string) returns (ok: bool)
      modifies this
      ensures (View(), ok) == Associated(server, old(View()), id, userid)
    {
      var contexts: map<string, nat> := map[];
      var t, session := clock, Current(id);
      clock := clock + 1;
      sessions := sessions[id := session.(contexts := contexts)];
      for i := 0 to |server.order|
        invariant clock == old(clock) + 1 && known == old(known) && requests == old(requests)
        invariant sessions == old(sessions)[id := session.(contexts := contexts)]
        invariant Attach(server, server.order[i..], userid, t, contexts) ==
          Attach(server, server.order, userid, t, map[])
      {
        var m := server.order[i];
        AttachStep(server, server.order[i..], userid, t, contexts);
        assert server.order[i..][1..] == server.order[i + 1..];
        match server.make(m, userid, t)
        case NoMaker =>
        case MakerRaises => return false;
        case MadeNothing =>
        case Made(context) =>
          contexts := contexts[m := context];
          sessions := sessions[id := session.(contexts := contexts)];
      }
      if id !in known { known := known + {id}; }
      assert known == old(known) + {id};
      return true;
    }

    /** `render_POST` up to the call of the function. */
    method RenderPost(id: SessionId, path: string, args: seq<string>, token: bool)
      modifies this
      ensures View() == Posted(server, old(View()), id, path, args, token)
    {
      ghost var before := View();
      if id !in sessions { sessions := sessions[id := FRESH]; }
      assert View() == SetSession(before, id, SessionOf(before, id));
      var q := Request(id, path, args, token, Current(id).loggedin || !NeedAuth(server, path), Queued, 0, []);
      if !token { requests := requests + [Refused(q, Unauthorized)]; return; }
      if !Current(id).loggedin {
        if NeedAuth(server, path) { requests := requests + [Refused(q, NeedsAuthentication)]; return; }
        sessions := sessions[id := Current(id).(userid := Some("root"))];
        var ok := AssociateContext(id, "root");
        if !ok {
          requests := requests + [Refused(q, NoContext)];
          return;
        }
      }
      match FindFunction(server, path)
      case Found => requests := requests + [q];
      case Missing => requests := requests + [Refused(q, NoSuchFunction)];
      case LookupRaises => requests := requests + [q.(phase := Crashed)];
    }

    /** The reply proper, the end of `_cbRender`: None becomes zero, a handler gives way to its
        result, a photo is wrapped, which may raise an exception, and what cannot be serialized
        becomes a fault. */
    method Write(i: nat, r: Result)
      requires i < |requests| && requests[i].phase.Ran?
      modifies this`requests
      ensures View() == Finish(old(View()), i, Reply(r))
    {
      var q, of := requests[i], Some(requests[i].phase.outcome);
      var result := r;
      if result == Direct(Nothing) { result := Direct(Plain(false, true)); }
      if result.Handler? { result := Direct(result.value); }
      var value := result.value;
      var sendable := value.FaultValue? || (value.Plain? && value.sendable);
      if value.Dict? {
        match value.photo
        case NotIndexable =>
          requests := requests[i := q.(phase := Dropped(of))];
          return;
        case FirstUnsendable => sendable := false;
        case _ => sendable := value.sendable;
      }
      var answer := if value.FaultValue? then FaultAnswer(value.code) else ValueAnswer(value);
      if !sendable { answer := FaultAnswer(CannotSerialize); }
      requests := requests[i := q.(phase := Replied(of), answers := q.answers + [answer])];
    }

    /** The login in `_cbRender`. */
    method LogIn(id: SessionId, userid: string) returns (ok: bool)
      modifies this
      ensures (View(), ok) == LoggedIn(server, old(View()), id, userid)
    {
      sessions := sessions[id := Current(id).(loggedin := true)];
      sessions := sessions[id := Current(id).(userid := Some(userid))];
      assert sessions == old(sessions)[id := SessionOf(old(View()), id).(loggedin := true, userid := Some(userid))];
      ok := AssociateContext(id, userid);
      if !ok {
        sessions := sessions[id := Current(id).(loggedin := false)];
      }
    }

    /** `_cbRender` for the result of a function, after `_ebRender` for an exception. */
    method CbRender(i: nat)
      requires i < |requests| && requests[i].phase.Ran?
      modifies this
      ensures View() == Delivered(server, old(View()), i)
    {
      var q := requests[i];
      var r := Settled(q.phase.outcome);
      if AuthFunction(q.path) && !IsFault(r) && Truthy(r) {
        var id := q.session;
        if q.args == [] {
          sessions := sessions[id := Current(id).(loggedin := true)];
          requests := requests[i := q.(phase := Dropped(Some(q.phase.outcome)))];
          return;
        }
        var ok := LogIn(id, q.args[0]);
        if !ok {
          Write(i, Direct(FaultValue(NoContext)));
          return;
        }
      }
      Write(i, r);
    }

    /** The worker thread calls the function. */
    method PutResult(i: nat, body: Body)
      requires InPhase(View(), i, Queued)
      modifies this`requests
      ensures View() == Called(old(View()), i, body)
    {
      var q := requests[i];
      match body
      case Done(o) => requests := requests[i := q.(phase := Ran(o), runs := q.runs + 1)];
      case Later => requests := requests[i := q.(phase := Pending, runs := q.runs + 1)];
    }
  }
}
