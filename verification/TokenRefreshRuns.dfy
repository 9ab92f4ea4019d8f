/**
 What every interleaving of token refreshes keeps: requests present the endpoint's current refresh
 token exactly until a replacement is lost, and no request is made while the cache is fresh.
 */
module TokenRefreshRuns {
  import opened Wrappers
  import opened TokenRefresh

  // ---------- What holds at each point of the code ----------

  ghost predicate PcOk(setup: Setup, s: State, pc: Pc) {
    && (pc.ReadingFields? || pc.ReadingRefresh? || pc.Requesting? ==> !Fresh(s.cache, s.clock))
    && (pc.Requesting? ==> pc.refresh == Presents(setup, s.secrets))
    && (Pending(pc) ==>
          && Lost !in s.log
          && s.current == if pc.reply.rotated != "" then pc.reply.rotated else Presents(setup, s.secrets))
    && (pc.Storing? ==> pc.reply.rotated != "")
    && (pc.Caching? && setup.path.Generic? && pc.reply.rotated != "" ==>
          Presents(setup, s.secrets) == pc.reply.rotated)
  }

  /** Between replies, what the credential presents is current exactly when nothing was lost. */
  predicate InStep(setup: Setup, s: State) {
    Lost !in s.log <==> Presents(setup, s.secrets) == s.current
  }

  /** A configured refresh token of a form provider hides the stored one. */
  predicate Overridden(setup: Setup) {
    setup.path.Form? && setup.staticRefresh != ""
  }

  ghost predicate Replaced(log: seq<Event>, token: string) {
    exists e :: e in log && e.Answered? && e.reply.rotated != "" && e.reply.rotated != token
  }

  /** Whether the endpoint still takes the configured token, when that is what is presented. */
  ghost predicate ConfiguredInStep(setup: Setup, s: State) {
    Overridden(setup) ==> (s.current == setup.staticRefresh <==> !Replaced(s.log, setup.staticRefresh))
  }

  ghost predicate EventOk(setup: Setup, before: seq<Event>, e: Event) {
    match e
    case Asked(_, presented, current, cache, at) =>
      && (cache.Some? ==> cache.value.expiresAt - at <= 30) && (presented == current <==> Lost !in before)
      && (Overridden(setup) ==> presented == setup.staticRefresh
                                && (presented == current <==> !Replaced(before, setup.staticRefresh)))
    case Released(_, stored, presents, current) =>
      presents == Presents(setup, NoFields.(refresh := stored)) && (presents == current <==> Lost !in before)
    case _ => true
  }

  ghost predicate LogOk(setup: Setup, log: seq<Event>) {
    forall i :: 0 <= i < |log| ==> EventOk(setup, log[..i], log[i])
  }

  ghost predicate Good(setup: Setup, s: State) {
    && Apart(setup, s)
    && (forall t: Thread :: PcOk(setup, s, s.At(t)))
    && ((forall t: Thread :: !Pending(s.At(t))) ==> InStep(setup, s))
    && ConfiguredInStep(setup, s)
    && LogOk(setup, s.log)
  }

  // ---------- The log grows ----------

  lemma LogGrows(setup: Setup, log: seq<Event>, e: Event)
    requires LogOk(setup, log) && EventOk(setup, log, e)
    ensures LogOk(setup, log + [e])
    ensures Lost in log + [e] <==> Lost in log || e == Lost
    ensures Replaced(log + [e], setup.staticRefresh) <==>
              Replaced(log, setup.staticRefresh)
              || (e.Answered? && e.reply.rotated != "" && e.reply.rotated != setup.staticRefresh)
  {
    var after := log + [e];
    forall i | 0 <= i < |after| ensures EventOk(setup, after[..i], after[i]) {
      assert after[..i] == log[..i];
      assert i == |log| ==> log[..i] == log;
    }
    assert after[|log|] == e;
    assert forall x :: x in after <==> x in log || x == e;
    if Replaced(log, setup.staticRefresh) {
      var x :| x in log && x.Answered? && x.reply.rotated != "" && x.reply.rotated != setup.staticRefresh;
      assert x in after;
    }
  }

  // ---------- Steps ----------

  /** What a step must establish for the thread that takes it; the others are not inside. */
  ghost predicate StepOk(setup: Setup, s: State, t: Thread, s': State) {
    && Moves(setup, s, t, s')
    && s'.clock >= s.clock
    && (!Inside(s.At(t)) ==> s'.cache == s.cache && s'.secrets == s.secrets && s'.current == s.current
                             && (Lost in s'.log <==> Lost in s.log))
    && PcOk(setup, s', s'.At(t))
    && (Inside(s.At(t)) && !Pending(s'.At(t)) ==> InStep(setup, s'))
    && ConfiguredInStep(setup, s')
    && LogOk(setup, s'.log)
  }

  lemma OtherPcStaysOk(setup: Setup, s: State, s': State, u: Thread)
    requires PcOk(setup, s, s.At(u)) && s'.At(u) == s.At(u)
    requires s'.clock >= s.clock
    requires Inside(s.At(u)) ==> s'.cache == s.cache && s'.secrets == s.secrets && s'.current == s.current
                                 && (Lost in s'.log <==> Lost in s.log)
    ensures PcOk(setup, s', s'.At(u))
  {
  }

  lemma StepOkKeepsGood(setup: Setup, s: State, t: Thread, s': State)
    requires Good(setup, s) && StepOk(setup, s, t, s')
    requires !setup.path.Locks() ==> AloneStarts(s, Move(t, Go))
    ensures Good(setup, s')
  {
    MovesKeepsApart(setup, s, t, s');
    ApartMeansOneInside(setup, s);
    forall u: Thread ensures PcOk(setup, s', s'.At(u)) {
      if u != t {
        OtherPcStaysOk(setup, s, s', u);
      }
    }
    if forall u: Thread :: !Pending(s'.At(u)) {
      if !Inside(s.At(t)) {
        forall u: Thread ensures !Pending(s.At(u)) {
          assert u != t ==> s'.At(u) == s.At(u);
        }
      }
      assert InStep(setup, s');
    }
  }

  /** Nothing is pending elsewhere when a thread is inside and not pending itself, or releases. */
  lemma InStepInside(setup: Setup, s: State, t: Thread)
    requires Good(setup, s)
    requires (Inside(s.At(t)) && !Pending(s.At(t))) ||
             (s.At(t).Leaving? && (setup.path.Locks() ==> s.lock == Some(t)))
    ensures InStep(setup, s)
  {
    ApartMeansOneInside(setup, s);
    forall u: Thread ensures !Pending(s.At(u)) {
      assert Pending(s.At(u)) ==> Inside(s.At(u));
    }
  }

  // Each lemma below takes one kind of step and shows that it is a good one.

  /** A log with one more event that neither loses nor answers anything. */
  lemma QuietEvent(setup: Setup, s: State, e: Event)
    requires Good(setup, s) && EventOk(setup, s.log, e) && e != Lost && !e.Answered?
    ensures LogOk(setup, s.log + [e]) && (Lost in s.log + [e] <==> Lost in s.log)
    ensures ConfiguredInStep(setup, s.Log([e]))
  {
    LogGrows(setup, s.log, e);
  }

  lemma EnteringIsOk(setup: Setup, s: State, t: Thread, choice: Choice)
    requires Good(setup, s) && (s.At(t).Idle? || s.At(t).Waiting?)
    ensures StepOk(setup, s, t, StepOf(setup, s, t, choice))
  {
    StepMoves(setup, s, t, choice);
    if s.At(t).Idle? {
      QuietEvent(setup, s, Called(t, s.clock));
      if Fresh(s.cache, s.clock) {
        LogGrows(setup, s.log + [Called(t, s.clock)], Hit(t, s.cache.value, s.clock));
      }
    }
  }

  lemma RecheckingIsOk(setup: Setup, s: State, t: Thread, choice: Choice)
    requires Good(setup, s) && s.At(t).Rechecking?
    ensures StepOk(setup, s, t, StepOf(setup, s, t, choice))
  {
    StepMoves(setup, s, t, choice);
    InStepInside(setup, s, t);
    if Fresh(s.cache, s.clock) {
      QuietEvent(setup, s, Hit(t, s.cache.value, s.clock));
    }
  }

  lemma ReadingIsOk(setup: Setup, s: State, t: Thread, choice: Choice)
    requires Good(setup, s) && (s.At(t).ReadingFields? || s.At(t).ReadingRefresh?)
    ensures StepOk(setup, s, t, StepOf(setup, s, t, choice))
  {
    StepMoves(setup, s, t, choice);
    InStepInside(setup, s, t);
    assert PcOk(setup, s, s.At(t));
  }

  lemma CachingStoredIsOk(setup: Setup, s: State, t: Thread, choice: Choice)
    requires Good(setup, s) && s.At(t).CachingStored?
    ensures StepOk(setup, s, t, StepOf(setup, s, t, choice))
  {
    StepMoves(setup, s, t, choice);
    InStepInside(setup, s, t);
    QuietEvent(setup, s, Cached(t, s.At(t).token, s.clock + TEN_YEARS, s.clock));
  }

  lemma AskedIsOk(setup: Setup, s: State, t: Thread)
    requires Good(setup, s) && s.At(t).Requesting?
    ensures InStep(setup, s)
    ensures EventOk(setup, s.log, Asked(t, s.At(t).refresh, s.current, s.cache, s.clock))
  {
    InStepInside(setup, s, t);
    assert PcOk(setup, s, s.At(t));
  }

  lemma RequestingIsOk(setup: Setup, s: State, t: Thread, choice: Choice)
    requires Good(setup, s) && s.At(t).Requesting?
    ensures StepOk(setup, s, t, StepOf(setup, s, t, choice))
  {
    StepMoves(setup, s, t, choice);
    AskedIsOk(setup, s, t);
    var refresh := s.At(t).refresh;
    var asked := Asked(t, refresh, s.current, s.cache, s.clock);
    QuietEvent(setup, s, asked);
    if choice.Answer? && refresh == s.current {
      AnswerIsOk(setup, s, t, choice.reply);
    }
  }

  lemma AnswerIsOk(setup: Setup, s: State, t: Thread, reply: Reply)
    requires Good(setup, s) && s.At(t).Requesting? && s.At(t).refresh == s.current
    ensures StepOk(setup, s, t, StepOf(setup, s, t, Answer(reply)))
  {
    StepMoves(setup, s, t, Answer(reply));
    AskedIsOk(setup, s, t);
    assert PcOk(setup, s, s.At(t));
    var asked := Asked(t, s.current, s.current, s.cache, s.clock);
    QuietEvent(setup, s, asked);
    LogGrows(setup, s.log + [asked], Answered(t, reply));
  }

  lemma GivingMoves(setup: Setup, s: State, s1: State, t: Thread, reply: Reply, outcome: Outcome)
    requires s1.pcs == s.pcs && s1.lock == s.lock && Inside(s.At(t))
    ensures Moves(setup, s, t, Give(setup, s1, t, reply, outcome))
  {
  }

  /** The end of dealing with a reply, whatever the outcome. */
  lemma GivingIsOk(setup: Setup, s: State, s1: State, t: Thread, reply: Reply, outcome: Outcome)
    requires s1.pcs == s.pcs && s1.lock == s.lock && s1.clock == s.clock
    requires Inside(s.At(t)) && LogOk(setup, s1.log) && ConfiguredInStep(setup, s1)
    requires Lost !in s1.log && s1.current == if reply.rotated != "" then reply.rotated else Presents(setup, s1.secrets)
    ensures StepOk(setup, s, t, Give(setup, s1, t, reply, outcome))
  {
    GivingMoves(setup, s, s1, t, reply, outcome);
    LogGrows(setup, s1.log, Lost);
    var given := Settle(setup, s1, reply);
    assert LogOk(setup, given.log) && ConfiguredInStep(setup, given) && InStep(setup, given);
  }

  lemma ReceivingIsOk(setup: Setup, s: State, t: Thread, choice: Choice)
    requires Good(setup, s) && s.At(t).Receiving?
    ensures StepOk(setup, s, t, StepOf(setup, s, t, choice))
  {
    StepMoves(setup, s, t, choice);
    assert PcOk(setup, s, s.At(t));
    GivingIsOk(setup, s, s, t, s.At(t).reply, Failed);
  }

  /** The token is cached, and the replacement is stored next. */
  lemma CachedThenStoring(setup: Setup, s: State, t: Thread, seen: Secrets, reply: Reply, token: Token, expiresAt: int)
    requires Good(setup, s) && s.At(t) == Caching(seen, reply) && !setup.path.Generic? && reply.rotated != ""
    ensures StepOk(setup, s, t, PutCache(s, t, token, expiresAt).To(t, Storing(seen, reply)))
  {
    assert PcOk(setup, s, s.At(t));
    QuietEvent(setup, s, Cached(t, token, expiresAt, s.clock));
  }

  lemma CachedThenGiving(setup: Setup, s: State, t: Thread, seen: Secrets, reply: Reply, token: Token, expiresAt: int)
    requires Good(setup, s) && s.At(t) == Caching(seen, reply) && (setup.path.Generic? || reply.rotated == "")
    ensures StepOk(setup, s, t, Give(setup, PutCache(s, t, token, expiresAt), t, reply, Got(token, FromReply)))
  {
    assert PcOk(setup, s, s.At(t));
    QuietEvent(setup, s, Cached(t, token, expiresAt, s.clock));
    GivingIsOk(setup, s, PutCache(s, t, token, expiresAt), t, reply, Got(token, FromReply));
  }

  lemma CachingIsOk(setup: Setup, s: State, t: Thread, choice: Choice)
    requires Good(setup, s) && s.At(t).Caching?
    ensures StepOk(setup, s, t, StepOf(setup, s, t, choice))
  {
    var Caching(seen, reply) := s.At(t);
    var token := TokenOf(setup, seen, reply);
    var expiresAt := s.clock + Lifetime(setup, seen, reply);
    CachingStep(setup, s, t, choice, expiresAt);
    if !setup.path.Generic? && reply.rotated != "" {
      CachedThenStoring(setup, s, t, seen, reply, token, expiresAt);
    } else {
      CachedThenGiving(setup, s, t, seen, reply, token, expiresAt);
    }
  }

  lemma StoringIsOk(setup: Setup, s: State, t: Thread, choice: Choice)
    requires Good(setup, s) && s.At(t).Storing?
    ensures StepOk(setup, s, t, StepOf(setup, s, t, choice))
  {
    var Storing(seen, reply) := s.At(t);
    assert PcOk(setup, s, s.At(t));
    var token := TokenOf(setup, seen, reply);
    var stored := s.(secrets := s.secrets.(refresh := Some(reply.rotated)));
    if choice.Break? {
      GivingIsOk(setup, s, s, t, reply, Failed);
    } else if !setup.path.Generic? {
      GivingIsOk(setup, s, stored, t, reply, Got(token, FromReply));
    } else if !Usable(setup, token) {
      GivingIsOk(setup, s, stored, t, reply, Failed);
    } else {
      StepMoves(setup, s, t, choice);
    }
  }

  lemma LeavingIsOk(setup: Setup, s: State, t: Thread, choice: Choice)
    requires Good(setup, s) && s.At(t).Leaving?
    ensures StepOk(setup, s, t, StepOf(setup, s, t, choice))
  {
    StepMoves(setup, s, t, choice);
    var returned := Returned(t, s.clock, s.At(t).outcome);
    if setup.path.Locks() ==> s.lock == Some(t) {
      InStepInside(setup, s, t);
      var released := Released(t, s.secrets.refresh, Presents(setup, s.secrets), s.current);
      QuietEvent(setup, s, released);
      LogGrows(setup, s.log + [released], returned);
    } else {
      QuietEvent(setup, s, returned);
    }
  }

  lemma StepIsOk(setup: Setup, s: State, t: Thread, choice: Choice)
    requires Good(setup, s)
    ensures StepOk(setup, s, t, StepOf(setup, s, t, choice))
  {
    var pc := s.At(t);
    if pc.Idle? || pc.Waiting? {
      EnteringIsOk(setup, s, t, choice);
    } else if pc.Rechecking? {
      RecheckingIsOk(setup, s, t, choice);
    } else if pc.ReadingFields? || pc.ReadingRefresh? {
      ReadingIsOk(setup, s, t, choice);
    } else if pc.CachingStored? {
      CachingStoredIsOk(setup, s, t, choice);
    } else if pc.Requesting? {
      RequestingIsOk(setup, s, t, choice);
    } else if pc.Receiving? {
      ReceivingIsOk(setup, s, t, choice);
    } else if pc.Caching? {
      CachingIsOk(setup, s, t, choice);
    } else if pc.Storing? {
      StoringIsOk(setup, s, t, choice);
    } else {
      LeavingIsOk(setup, s, t, choice);
    }
  }

  lemma NextKeepsGood(setup: Setup, s: State, action: Action)
    requires Good(setup, s)
    requires !setup.path.Locks() ==> AloneStarts(s, action)
    ensures Good(setup, Next(setup, s, action))
  {
    match action
    case Tick(delay) =>
      var s' := Next(setup, s, action);
      StepKeepsApart(setup, s, action);
      forall u: Thread ensures PcOk(setup, s', s'.At(u)) {
        OtherPcStaysOk(setup, s, s', u);
      }
      if forall u: Thread :: !Pending(s'.At(u)) {
        forall u: Thread ensures !Pending(s.At(u)) {
          assert s'.At(u) == s.At(u);
        }
      }
    case Move(t, choice) =>
      StepIsOk(setup, s, t, choice);
      StepOkKeepsGood(setup, s, t, StepOf(setup, s, t, choice));
  }

  // ---------- Runs ----------

  /** On the path that takes no lock, calls do not overlap; the others may interleave in any way. */
  ghost predicate Admissible(setup: Setup, s: State, actions: seq<Action>) {
    !setup.path.Locks() ==>
      forall i :: 0 <= i < |actions| ==> AloneStarts(Exec(setup, s, actions[..i]), actions[i])
  }

  lemma {:induction false} RunsAreGood(setup: Setup, s: State, actions: seq<Action>)
    requires Initial(setup, s) && Admissible(setup, s, actions)
    ensures Good(setup, Exec(setup, s, actions))
  {
    if actions == [] {
      assert forall t: Thread :: s.At(t).Idle?;
    } else {
      var n := |actions| - 1;
      AdmissiblePrefix(setup, s, actions, n);
      RunsAreGood(setup, s, actions[..n]);
      NextKeepsGood(setup, Exec(setup, s, actions[..n]), actions[n]);
    }
  }

  /** In every run, each request presents the endpoint's current refresh token exactly when no
      replacement has been lost before it, and the same holds of what the credential presents
      whenever a call releases it. */
  lemma PresentsCurrentUntilLost(setup: Setup, s: State, actions: seq<Action>, i: nat)
    requires Initial(setup, s) && Admissible(setup, s, actions)
    requires i < |Exec(setup, s, actions).log|
    ensures
      var log := Exec(setup, s, actions).log;
      match log[i]
      case Asked(_, presented, current, _, _) => presented == current <==> Lost !in log[..i]
      case Released(_, _, presents, current) => presents == current <==> Lost !in log[..i]
      case _ => true
  {
    RunsAreGood(setup, s, actions);
    var log := Exec(setup, s, actions).log;
    assert EventOk(setup, log[..i], log[i]);
  }

  /** In every run no request is made while the cached token has more than thirty seconds left. */
  lemma SingleFlight(setup: Setup, s: State, actions: seq<Action>, i: nat)
    requires Initial(setup, s) && Admissible(setup, s, actions)
    requires i < |Exec(setup, s, actions).log| && Exec(setup, s, actions).log[i].Asked?
    ensures var Asked(_, _, _, cache, at) := Exec(setup, s, actions).log[i];
            cache.Some? ==> cache.value.expiresAt - at <= 30
  {
    RunsAreGood(setup, s, actions);
    var log := Exec(setup, s, actions).log;
    assert EventOk(setup, log[..i], log[i]);
  }

  // ---------- When a replacement is lost ----------

  /** The step throws a replacement token away: the reply is lost on the way or cannot be used (the
      generic path stores the replacement before it asks for an access token), or the store refuses
      it, or a configured token will be presented in its place anyway. */
  predicate Drops(setup: Setup, s: State, action: Action) {
    action.Move? &&
    match s.At(action.t)
    case Receiving(seen, reply) =>
      && reply.rotated != "" && reply.rotated != Presents(setup, s.secrets)
      && (action.choice.Break? || !reply.supportedType
          || (!setup.path.Generic? && !Usable(setup, TokenOf(setup, seen, reply))))
    case Storing(seen, reply) =>
      reply.rotated != Presents(setup, s.secrets) && (action.choice.Break? || Overridden(setup))
    case _ => false
  }

  lemma LostReceiving(setup: Setup, s: State, t: Thread, choice: Choice)
    requires s.At(t).Receiving?
    ensures Lost in StepOf(setup, s, t, choice).log <==> Lost in s.log || Drops(setup, s, Move(t, choice))
  {
  }

  lemma LostStoring(setup: Setup, s: State, t: Thread, choice: Choice)
    requires s.At(t).Storing? && s.At(t).reply.rotated != ""
    ensures Lost in StepOf(setup, s, t, choice).log <==> Lost in s.log || Drops(setup, s, Move(t, choice))
  {
  }

  lemma LostInStep(setup: Setup, s: State, action: Action)
    requires Good(setup, s)
    ensures Lost in Next(setup, s, action).log <==> Lost in s.log || Drops(setup, s, action)
  {
    if action.Move? {
      var pc := s.At(action.t);
      assert PcOk(setup, s, pc);
      if pc.Receiving? {
        LostReceiving(setup, s, action.t, action.choice);
      } else if pc.Storing? {
        LostStoring(setup, s, action.t, action.choice);
      } else if pc.Requesting? {
        assert Lost in Next(setup, s, action).log <==> Lost in s.log;
      }
    }
  }

  /** The step at this place of the run drops a replacement. */
  predicate DropsAt(setup: Setup, s: State, actions: seq<Action>, i: nat)
    requires i < |actions|
  {
    Drops(setup, Exec(setup, s, actions[..i]), actions[i])
  }

  lemma DropsAtPrefix(setup: Setup, s: State, actions: seq<Action>, n: nat, i: nat)
    requires i < n <= |actions|
    ensures DropsAt(setup, s, actions[..n], i) == DropsAt(setup, s, actions, i)
  {
    assert actions[..n][..i] == actions[..i];
  }

  lemma AdmissiblePrefix(setup: Setup, s: State, actions: seq<Action>, n: nat)
    requires Admissible(setup, s, actions) && n <= |actions|
    ensures Admissible(setup, s, actions[..n])
  {
    assert forall i :: 0 <= i < n ==> actions[..n][..i] == actions[..i] && actions[..n][i] == actions[i];
  }

  /** In every run, a replacement has been lost exactly when some step of the run dropped one. */
  lemma {:induction false} LostExactlyWhen(setup: Setup, s: State, actions: seq<Action>)
    requires Initial(setup, s) && Admissible(setup, s, actions)
    ensures Lost in Exec(setup, s, actions).log <==> exists i :: 0 <= i < |actions| && DropsAt(setup, s, actions, i)
  {
    if actions != [] {
      var n := |actions| - 1;
      AdmissiblePrefix(setup, s, actions, n);
      LostExactlyWhen(setup, s, actions[..n]);
      RunsAreGood(setup, s, actions[..n]);
      LostInStep(setup, Exec(setup, s, actions[..n]), actions[n]);
      assert DropsAt(setup, s, actions, n) == Drops(setup, Exec(setup, s, actions[..n]), actions[n]);
      forall i | 0 <= i < n ensures DropsAt(setup, s, actions[..n], i) == DropsAt(setup, s, actions, i) {
        DropsAtPrefix(setup, s, actions, n, i);
      }
    }
  }

  /** In every run that drops nothing, every request presents the endpoint's current refresh token,
      and whenever a call releases the credential the store holds that token (nothing being configured
      beside the store, and the endpoint having one). */
  lemma StoreHoldsCurrent(setup: Setup, s: State, actions: seq<Action>, i: nat)
    requires Initial(setup, s) && Admissible(setup, s, actions)
    requires i < |Exec(setup, s, actions).log|
    requires forall j :: 0 <= j < |actions| ==> !DropsAt(setup, s, actions, j)
    ensures
      match Exec(setup, s, actions).log[i]
      case Asked(_, presented, current, _, _) => presented == current
      case Released(_, stored, presents, current) =>
        presents == current && (setup.staticRefresh == "" && current != "" ==> stored == Some(current))
      case _ => true
  {
    LostExactlyWhen(setup, s, actions);
    RunsAreGood(setup, s, actions);
    var log := Exec(setup, s, actions).log;
    assert EventOk(setup, log[..i], log[i]);
    assert Lost !in log[..i];
  }

  /** A configured refresh token of a form provider is presented every time, and is the current one
      exactly until the endpoint has answered with a different one, stored or not. */
  lemma ConfiguredTokenGoesStale(setup: Setup, s: State, actions: seq<Action>, i: nat)
    requires Initial(setup, s) && Admissible(setup, s, actions) && Overridden(setup)
    requires i < |Exec(setup, s, actions).log| && Exec(setup, s, actions).log[i].Asked?
    ensures
      var log := Exec(setup, s, actions).log;
      && log[i].presented == setup.staticRefresh
      && (log[i].presented == log[i].current <==>
            !exists e :: e in log[..i] && e.Answered?
                         && e.reply.rotated != "" && e.reply.rotated != setup.staticRefresh)
  {
    RunsAreGood(setup, s, actions);
    var log := Exec(setup, s, actions).log;
    assert EventOk(setup, log[..i], log[i]);
  }

  // ---------- Two runs in which a used token is presented ----------

  lemma ExecSnoc(setup: Setup, s: State, actions: seq<Action>, action: Action)
    ensures Exec(setup, s, actions + [action]) == Next(setup, Exec(setup, s, actions), action)
  {
    assert (actions + [action])[..|actions|] == actions;
  }

  ghost predicate Reaches(setup: Setup, first: State, s: State) {
    exists actions: seq<Action> :: Exec(setup, first, actions) == s
  }

  /** The thread presented this token when that one was current. */
  ghost predicate Presented(log: seq<Event>, t: Thread, token: string, current: string) {
    exists i :: 0 <= i < |log| && log[i].Asked? && log[i].t == t
                && log[i].presented == token && log[i].current == current
  }

  lemma Reach(setup: Setup, first: State, s: State, t: Thread, choice: Choice) returns (next: State)
    requires Reaches(setup, first, s)
    ensures next == StepOf(setup, s, t, choice) && Reaches(setup, first, next)
  {
    var actions: seq<Action> :| Exec(setup, first, actions) == s;
    ExecSnoc(setup, first, actions, Move(t, choice));
    next := Exec(setup, first, actions + [Move(t, choice)]);
  }

  /** From an idle thread with nothing fresh in the cache to its request. */
  lemma UpToRequest(setup: Setup, first: State, s: State) returns (next: State)
    requires setup == Setup(Form, "", "r1") && Reaches(setup, first, s)
    requires s.At(0).Idle? && s.lock.None? && !Fresh(s.cache, s.clock) && s.secrets.access == ""
    ensures Reaches(setup, first, next) && next.At(0) == Requesting(NoFields, "r1")
    ensures next.current == s.current && next.secrets == s.secrets && next.lock == Some(0)
    ensures next.cache == s.cache && next.clock == s.clock
  {
    next := Reach(setup, first, s, 0, Go);
    next := Reach(setup, first, next, 0, Go);
    next := Reach(setup, first, next, 0, Go);
    next := Reach(setup, first, next, 0, Go);
    next := Reach(setup, first, next, 0, Go);
  }

  /** An answer that replaces the token is taken, */
  lemma AnsweredAndTaken(setup: Setup, first: State, s: State, reply: Reply) returns (next: State)
    requires setup == Setup(Form, "", "r1") && Reaches(setup, first, s)
    requires s.At(0) == Requesting(NoFields, "r1") && s.current == "r1" && s.lock == Some(0) && s.clock == 0
    requires reply == Reply(Some("a"), None, Some(10), "r2", true)
    ensures Reaches(setup, first, next) && next.At(0) == Caching(NoFields, reply) && next.current == "r2"
    ensures next.secrets == s.secrets && next.lock == Some(0) && next.clock == 0
  {
    next := Reach(setup, first, s, 0, Answer(reply));
    next := Reach(setup, first, next, 0, Go);
  }

  /** cached, */
  lemma AnsweredAndCached(setup: Setup, first: State, s: State, reply: Reply) returns (next: State)
    requires setup == Setup(Form, "", "r1") && Reaches(setup, first, s)
    requires s.At(0) == Caching(NoFields, reply) && s.lock == Some(0) && s.clock == 0
    requires reply == Reply(Some("a"), None, Some(10), "r2", true)
    ensures Reaches(setup, first, next) && next.At(0) == Storing(NoFields, reply) && next.current == s.current
    ensures next.secrets == s.secrets && next.lock == Some(0) && !Fresh(next.cache, next.clock)
  {
    next := Reach(setup, first, s, 0, Go);
  }

  /** and stored. */
  lemma AnsweredAndStored(setup: Setup, first: State, s: State, reply: Reply) returns (next: State)
    requires setup == Setup(Form, "", "r1") && Reaches(setup, first, s)
    requires s.At(0) == Storing(NoFields, reply) && s.lock == Some(0) && !Fresh(s.cache, s.clock)
    requires reply == Reply(Some("a"), None, Some(10), "r2", true)
    ensures Reaches(setup, first, next) && next.At(0).Idle? && next.lock.None? && next.current == s.current
    ensures next.secrets == s.secrets.(refresh := Some("r2")) && !Fresh(next.cache, next.clock)
  {
    next := Reach(setup, first, s, 0, Go);
    next := Reach(setup, first, next, 0, Go);
  }

  /** A configured token is presented again after the endpoint has replaced it, and the replacement been stored. */
  lemma ConfiguredTokenIsPresentedStale()
    ensures
      var setup := Setup(Form, "", "r1");
      var s := State(0, None, None, Secrets("", "", 0, None), "r1", map[], []);
      && Initial(setup, s)
      && exists after :: Reaches(setup, s, after) && after.secrets.refresh == Some("r2")
                         && Presented(after.log, 0, "r1", "r2")
  {
    var setup := Setup(Form, "", "r1");
    var s := State(0, None, None, Secrets("", "", 0, None), "r1", map[], []);
    assert Exec(setup, s, []) == s;
    var asking := UpToRequest(setup, s, s);
    var reply := Reply(Some("a"), None, Some(10), "r2", true);
    var taken := AnsweredAndTaken(setup, s, asking, reply);
    var cached := AnsweredAndCached(setup, s, taken, reply);
    var stored := AnsweredAndStored(setup, s, cached, reply);
    var again := UpToRequest(setup, s, stored);
    var after := Reach(setup, s, again, 0, Refuse);
    assert after.log[|after.log| - 1] == Asked(0, "r1", "r2", again.cache, again.clock);
  }

  /** A Notion call, which takes no lock, reads the token it is about to present. */
  lemma NotionReads(setup: Setup, first: State, s: State, t: Thread, other: Thread) returns (next: State)
    requires setup == Setup(Notion, "", "") && Reaches(setup, first, s) && t != other
    requires s.At(t).Idle? && s.cache.None? && s.secrets.refresh == Some("r1")
    ensures Reaches(setup, first, next) && next.At(t) == Requesting(NoFields, "r1") && next.At(other) == s.At(other)
    ensures next.current == s.current && next.cache.None? && next.secrets == s.secrets
  {
    next := Reach(setup, first, s, t, Go);
    next := Reach(setup, first, next, t, Go);
  }

  /** When two such calls overlap, the second presents the token that the first has used up. */
  lemma OverlappingNotionCallsPresentStale()
    ensures
      var setup := Setup(Notion, "", "");
      var s := State(0, None, None, Secrets("", "", 0, Some("r1")), "r1", map[], []);
      && Initial(setup, s)
      && exists after :: Reaches(setup, s, after) && Presented(after.log, 1, "r1", "r2")
  {
    var setup := Setup(Notion, "", "");
    var s := State(0, None, None, Secrets("", "", 0, Some("r1")), "r1", map[], []);
    assert Exec(setup, s, []) == s;
    var one := NotionReads(setup, s, s, 0, 1);
    var both := NotionReads(setup, s, one, 1, 0);
    var answered := Reach(setup, s, both, 0, Answer(Reply(Some("a"), None, None, "r2", true)));
    var after := Reach(setup, s, answered, 1, Refuse);
    assert after.log[|after.log| - 1] == Asked(1, "r1", "r2", answered.cache, answered.clock);
  }
}
