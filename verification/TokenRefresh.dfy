/**
 Access tokens shared by many threads: a token cache, a lock per credential, the secret store, and
 a token endpoint that may replace the refresh token whenever it is used. One credential is
 followed; a run is any sequence of single steps by any threads, in any order.
 */
module TokenRefresh {
  import opened Wrappers

  type Thread = nat

  // Times are in seconds.
  const MARGIN := 30
  const HOUR := 3600
  const TEN_YEARS := 315360000

  /** Which code a credential uses: the generic services, the three form-encoded providers, which
      lock as well, or Notion, which does not lock. */
  datatype Path = Generic | Form | Notion {
    predicate Locks() {
      !Notion?
    }
  }

  /** Values configured beside the store; the generic path has none. */
  datatype Setup = Setup(path: Path, staticAccess: string, staticRefresh: string)

  datatype Token = Token(access: string, idToken: string)

  /** The stored fields of the credential. Only the refresh token is ever written here. */
  datatype Secrets = Secrets(access: string, idToken: string, expiresIn: int, refresh: Option<string>)

  /** A successful answer of the endpoint, field by field as far as present. */
  datatype Reply = Reply(
    access: Option<string>, idToken: Option<string>, expiresIn: Option<int>, rotated: string, supportedType: bool)

  datatype CacheEntry = CacheEntry(token: Token, expiresAt: int)

  datatype How = FromCache | FromSecrets | FromReply
  datatype Outcome = Failed | Got(token: Token, how: How)

  /** Where a thread stands; everything from `Rechecking` to `Leaving` runs under the lock. */
  datatype Pc =
    | Idle
    | Waiting
    | Rechecking
    | ReadingFields
    | ReadingRefresh(seen: Secrets)
    | CachingStored(token: Token)
    | Requesting(seen: Secrets, refresh: string)
    | Receiving(seen: Secrets, reply: Reply)
    | Caching(seen: Secrets, reply: Reply)
    | Storing(seen: Secrets, reply: Reply)
    | Leaving(outcome: Outcome)

  datatype Event =
    /** A call starts, and looks at the cache. */
    | Called(t: Thread, at: int)
    /** A look at the cache found an entry that is good enough. */
    | Hit(t: Thread, entry: CacheEntry, at: int)
    /** A request goes out, with what it presents, what is current, and what the cache holds. */
    | Asked(t: Thread, presented: string, current: string, cache: Option<CacheEntry>, at: int)
    | Answered(t: Thread, reply: Reply)
    /** A replacement token was dropped: the credential will present something else from now on. */
    | Lost
    | Cached(t: Thread, token: Token, expiresAt: int, at: int)
    | Released(t: Thread, stored: Option<string>, presents: string, current: string)
    | Returned(t: Thread, at: int, outcome: Outcome)

  datatype State = State(
    clock: int, cache: Option<CacheEntry>, lock: Option<Thread>, secrets: Secrets, current: string,
    pcs: map<Thread, Pc>, log: seq<Event>)
  {
    function At(t: Thread): Pc {
      if t in pcs then pcs[t] else Idle
    }

    function To(t: Thread, pc: Pc): State {
      this.(pcs := pcs[t := pc])
    }

    function Log(events: seq<Event>): State {
      this.(log := log + events)
    }
  }

  /** What the world does with the step a thread takes. */
  datatype Choice =
    | Go
    /** The step's store access, configuration lookup or network exchange fails. */
    | Break
    | Answer(reply: Reply)
    /** The endpoint turns the request down although its token is good. */
    | Refuse

  datatype Action = Tick(delay: nat) | Move(t: Thread, choice: Choice)

  // ---------- The pieces of a step ----------

  predicate Fresh(cache: Option<CacheEntry>, clock: int) {
    cache.Some? && cache.value.expiresAt - clock > MARGIN
  }

  /** The refresh token a read finds: Notion prefers the store, the form providers the configured one. */
  function Presents(setup: Setup, secrets: Secrets): string {
    match setup.path
    case Generic => if secrets.refresh.Some? then secrets.refresh.value else ""
    case Form =>
      if setup.staticRefresh != "" then setup.staticRefresh
      else if secrets.refresh.Some? then secrets.refresh.value else ""
    case Notion => if secrets.refresh.Some? then secrets.refresh.value else setup.staticRefresh
  }

  /** The generic path lays the reply over the stored fields; the others take the reply alone. */
  function TokenOf(setup: Setup, seen: Secrets, reply: Reply): Token {
    if setup.path.Generic? then Token(GetOr(reply.access, seen.access), GetOr(reply.idToken, seen.idToken))
    else Token(GetOr(reply.access, ""), "")
  }

  function Lifetime(setup: Setup, seen: Secrets, reply: Reply): int {
    var expiresIn := if reply.expiresIn.Some? then reply.expiresIn.value
                     else if setup.path.Generic? then seen.expiresIn else 0;
    if expiresIn > 0 then expiresIn else HOUR
  }

  predicate Usable(setup: Setup, token: Token) {
    token.access != "" || (setup.path.Generic? && token.idToken != "")
  }

  /** The reply is dealt with: its replacement token, if any, is what will be presented, or is lost. */
  function Settle(setup: Setup, s: State, reply: Reply): State {
    if reply.rotated != "" && Presents(setup, s.secrets) != reply.rotated then s.Log([Lost]) else s
  }

  function Give(setup: Setup, s: State, t: Thread, reply: Reply, outcome: Outcome): State {
    Settle(setup, s, reply).To(t, Leaving(outcome))
  }

  // ---------- One step ----------

  function StepOf(setup: Setup, s: State, t: Thread, choice: Choice): State {
    match s.At(t)
    case Idle =>
      var called := s.Log([Called(t, s.clock)]);
      if Fresh(s.cache, s.clock) then TakeCached(called, t)
      else called.To(t, if setup.path.Locks() then Waiting else ReadingRefresh(NoFields))
    case Waiting =>
      if s.lock.None? then s.(lock := Some(t)).To(t, Rechecking) else s
    case Rechecking =>
      if Fresh(s.cache, s.clock) then TakeCached(s, t) else s.To(t, ReadingFields)
    case ReadingFields =>
      if choice.Break? then s.To(t, Leaving(Failed))
      else if setup.path.Generic? then s.To(t, ReadingRefresh(s.secrets))
      else
        var access := if setup.staticAccess != "" then setup.staticAccess else s.secrets.access;
        s.To(t, if access != "" then CachingStored(Token(access, "")) else ReadingRefresh(NoFields))
    case ReadingRefresh(seen) =>
      var refresh := Presents(setup, s.secrets);
      if choice.Break? then s.To(t, Leaving(Failed))
      else if refresh != "" then s.To(t, Requesting(seen, refresh))
      else if seen.access != "" then s.To(t, CachingStored(Token(seen.access, seen.idToken)))
      else s.To(t, Leaving(Failed))
    case CachingStored(token) =>
      PutCache(s, t, token, s.clock + TEN_YEARS).To(t, Leaving(Got(token, FromSecrets)))
    case Requesting(seen, refresh) => Ask(setup, s, t, seen, refresh, choice)
    case Receiving(seen, reply) => Receive(setup, s, t, seen, reply, choice)
    case Caching(seen, reply) =>
      var token := TokenOf(setup, seen, reply);
      var cached := PutCache(s, t, token, s.clock + Lifetime(setup, seen, reply));
      if !setup.path.Generic? && reply.rotated != "" then cached.To(t, Storing(seen, reply))
      else Give(setup, cached, t, reply, Got(token, FromReply))
    case Storing(seen, reply) => Store(setup, s, t, seen, reply, choice)
    case Leaving(outcome) =>
      var released := Released(t, s.secrets.refresh, Presents(setup, s.secrets), s.current);
      if setup.path.Locks() && s.lock != Some(t) then s.To(t, Idle).Log([Returned(t, s.clock, outcome)])
      else s.(lock := None).To(t, Idle).Log([released]).Log([Returned(t, s.clock, outcome)])
  }

  function TakeCached(s: State, t: Thread): State
    requires s.cache.Some?
  {
    s.Log([Hit(t, s.cache.value, s.clock)]).To(t, Leaving(Got(s.cache.value.token, FromCache)))
  }

  const NoFields := Secrets("", "", 0, None)

  function PutCache(s: State, t: Thread, token: Token, expiresAt: int): State {
    s.(cache := Some(CacheEntry(token, expiresAt))).Log([Cached(t, token, expiresAt, s.clock)])
  }

  /** The endpoint takes only its current refresh token, and may replace it when it answers. */
  function Ask(setup: Setup, s: State, t: Thread, seen: Secrets, refresh: string, choice: Choice): State {
    var asked := s.Log([Asked(t, refresh, s.current, s.cache, s.clock)]);
    match choice
    case Answer(reply) =>
      if refresh != s.current then asked.To(t, Leaving(Failed))
      else asked.(current := if reply.rotated != "" then reply.rotated else s.current)
             .To(t, Receiving(seen, reply)).Log([Answered(t, reply)])
    case Refuse => asked.To(t, Leaving(Failed))
    case _ => s.To(t, Leaving(Failed))
  }

  /** The form and Notion paths check the access token first and cache it; the generic path stores
      the replacement token before it looks at the access token. */
  function Receive(setup: Setup, s: State, t: Thread, seen: Secrets, reply: Reply, choice: Choice): State {
    var usable := Usable(setup, TokenOf(setup, seen, reply));
    if choice.Break? || !reply.supportedType then Give(setup, s, t, reply, Failed)
    else if setup.path.Generic? && reply.rotated != "" then s.To(t, Storing(seen, reply))
    else if usable then s.To(t, Caching(seen, reply))
    else Give(setup, s, t, reply, Failed)
  }

  function Store(setup: Setup, s: State, t: Thread, seen: Secrets, reply: Reply, choice: Choice): State {
    var token := TokenOf(setup, seen, reply);
    var stored := s.(secrets := s.secrets.(refresh := Some(reply.rotated)));
    if choice.Break? then Give(setup, s, t, reply, Failed)
    else if !setup.path.Generic? then Give(setup, stored, t, reply, Got(token, FromReply))
    else if Usable(setup, token) then stored.To(t, Caching(seen, reply))
    else Give(setup, stored, t, reply, Failed)
  }

  /** The two ways out of caching, after the entry is in the cache. */
  lemma CachingStep(setup: Setup, s: State, t: Thread, choice: Choice, expiresAt: int)
    requires s.At(t).Caching? && expiresAt == s.clock + Lifetime(setup, s.At(t).seen, s.At(t).reply)
    ensures var Caching(seen, reply) := s.At(t);
            var token := TokenOf(setup, seen, reply);
            var cached := PutCache(s, t, token, expiresAt);
            StepOf(setup, s, t, choice) ==
              if !setup.path.Generic? && reply.rotated != "" then cached.To(t, Storing(seen, reply))
              else Give(setup, cached, t, reply, Got(token, FromReply))
  {
  }

  /** Leaving releases the lock, where it is held, and returns. */
  lemma LeavingStep(setup: Setup, s: State, t: Thread, choice: Choice)
    requires s.At(t).Leaving?
    ensures var returned := Returned(t, s.clock, s.At(t).outcome);
            var released := Released(t, s.secrets.refresh, Presents(setup, s.secrets), s.current);
            StepOf(setup, s, t, choice) ==
              (if setup.path.Locks() && s.lock != Some(t) then s else s.(lock := None).Log([released]))
                .To(t, Idle).Log([returned])
  {
  }

  function Next(setup: Setup, s: State, action: Action): State {
    match action
    case Tick(delay) => s.(clock := s.clock + delay)
    case Move(t, choice) => StepOf(setup, s, t, choice)
  }

  function Exec(setup: Setup, s: State, actions: seq<Action>): State {
    if actions == [] then s
    else Next(setup, Exec(setup, s, actions[..|actions| - 1]), actions[|actions| - 1])
  }

  /** Nobody has started, nothing is cached, and the credential would present the current token. */
  predicate Initial(setup: Setup, s: State) {
    && s.cache.None? && s.lock.None? && s.pcs == map[] && s.log == []
    && Presents(setup, s.secrets) == s.current
    && (setup.path.Generic? ==> setup.staticAccess == "" && setup.staticRefresh == "")
  }

  // ---------- One thread at a time ----------

  /** Past the fast check and the wait, and not on the way out without having entered. */
  predicate Inside(pc: Pc) {
    !pc.Idle? && !pc.Waiting? && !pc.Leaving?
  }

  /** Between the endpoint's answer and the end of the work it calls for. */
  predicate Pending(pc: Pc) {
    pc.Receiving? || pc.Caching? || pc.Storing?
  }

  ghost predicate OneInside(s: State) {
    forall t: Thread, u: Thread :: Inside(s.At(t)) && Inside(s.At(u)) ==> t == u
  }

  ghost predicate LockHeld(s: State) {
    && (forall t: Thread :: Inside(s.At(t)) ==> s.lock == Some(t))
    && (s.lock.Some? ==> Inside(s.At(s.lock.value)) || s.At(s.lock.value).Leaving?)
  }

  /** A Notion run is serial when a call starts only while no other is under way. */
  ghost predicate AloneStarts(s: State, action: Action) {
    action.Move? && s.At(action.t).Idle? ==> forall u: Thread :: s.At(u).Idle?
  }

  ghost predicate Alone(s: State) {
    forall t: Thread, u: Thread :: !s.At(t).Idle? && !s.At(u).Idle? ==> t == u
  }

  /** What keeps threads apart: the lock, or, without one, that calls do not overlap. */
  ghost predicate Apart(setup: Setup, s: State) {
    if setup.path.Locks() then LockHeld(s) else Alone(s)
  }

  /** A step moves its own thread only, and enters or leaves through the lock. */
  predicate Moves(setup: Setup, s: State, t: Thread, s': State) {
    var (pc, pc') := (s.At(t), s'.At(t));
    && (s'.pcs == s.pcs || s'.pcs == s.pcs[t := pc'])
    && (pc.Idle? ==> pc'.Leaving? || pc' == (if setup.path.Locks() then Waiting else ReadingRefresh(NoFields)))
    && (pc.Waiting? ==> if s.lock.None? then pc'.Rechecking? else pc'.Waiting?)
    && (pc.Leaving? ==> pc'.Idle?)
    && (Inside(pc) ==> Inside(pc') || pc'.Leaving?)
    && s'.lock == (if pc.Waiting? && s.lock.None? then Some(t)
                   else if pc.Leaving? && (setup.path.Locks() ==> s.lock == Some(t)) then None
                   else s.lock)
  }

  lemma StepMoves(setup: Setup, s: State, t: Thread, choice: Choice)
    ensures Moves(setup, s, t, StepOf(setup, s, t, choice))
  {
    match s.At(t)
    case Requesting(seen, refresh) => AskMoves(setup, s, t, seen, refresh, choice);
    case Receiving(seen, reply) => ReceiveMoves(setup, s, t, seen, reply, choice);
    case Storing(seen, reply) => StoreMoves(setup, s, t, seen, reply, choice);
    case _ =>
  }

  lemma AskMoves(setup: Setup, s: State, t: Thread, seen: Secrets, refresh: string, choice: Choice)
    requires Inside(s.At(t))
    ensures Moves(setup, s, t, Ask(setup, s, t, seen, refresh, choice))
  {
  }

  lemma ReceiveMoves(setup: Setup, s: State, t: Thread, seen: Secrets, reply: Reply, choice: Choice)
    requires Inside(s.At(t))
    ensures Moves(setup, s, t, Receive(setup, s, t, seen, reply, choice))
  {
  }

  lemma StoreMoves(setup: Setup, s: State, t: Thread, seen: Secrets, reply: Reply, choice: Choice)
    requires Inside(s.At(t))
    ensures Moves(setup, s, t, Store(setup, s, t, seen, reply, choice))
  {
  }

  lemma MovesKeepsApart(setup: Setup, s: State, t: Thread, s': State)
    requires Apart(setup, s) && Moves(setup, s, t, s')
    requires !setup.path.Locks() ==> AloneStarts(s, Move(t, Go))
    ensures Apart(setup, s')
  {
    assert forall u: Thread :: u != t ==> s'.At(u) == s.At(u);
  }

  lemma StepKeepsApart(setup: Setup, s: State, action: Action)
    requires Apart(setup, s)
    requires !setup.path.Locks() ==> AloneStarts(s, action)
    ensures Apart(setup, Next(setup, s, action))
  {
    if action.Move? {
      StepMoves(setup, s, action.t, action.choice);
      MovesKeepsApart(setup, s, action.t, Next(setup, s, action));
    } else {
      assert forall u: Thread :: Next(setup, s, action).At(u) == s.At(u);
    }
  }

  lemma ApartMeansOneInside(setup: Setup, s: State)
    requires Apart(setup, s)
    ensures OneInside(s)
  {
  }
}
