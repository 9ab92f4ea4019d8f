/**
 When a token refresh fails: as long as the store, the network and the endpoint do their part, only
 for want of a token to present, with one that has been replaced, or on an answer without a token.
 */
module TokenRefreshFailures {
  import opened Wrappers
  import opened TokenRefresh
  import opened TokenRefreshCalls

  /** Nothing outside breaks, and the endpoint answers every token that is current. */
  predicate Smooth(s: State, action: Action) {
    action.Move? ==>
      !action.choice.Break? && !action.choice.Refuse? && (s.At(action.t).Requesting? ==> action.choice.Answer?)
  }

  ghost predicate SmoothRun(setup: Setup, s: State, actions: seq<Action>) {
    forall j :: 0 <= j < |actions| ==> Smooth(Exec(setup, s, actions[..j]), actions[j])
  }

  /** There is no refresh token to present, neither stored nor, where it is looked at, configured. */
  predicate NoRefresh(setup: Setup, secrets: Secrets) {
    && (secrets.refresh.Some? ==> secrets.refresh.value == "")
    && (setup.path.Form? || (setup.path.Notion? && secrets.refresh.None?) ==> setup.staticRefresh == "")
  }

  /** No token can be made of the answer. */
  predicate NoTokenIn(setup: Setup, fields: Kept, reply: Reply) {
    if setup.path.Generic? then
      && (match reply.access case Some(access) => access == "" case None => fields.access == "")
      && (match reply.idToken case Some(idToken) => idToken == "" case None => fields.idToken == "")
    else reply.access.Some? ==> reply.access.value == ""
  }

  ghost predicate AskedStale(log: seq<Event>, c: nat, t: Thread) {
    exists j :: c < j < |log| && log[j].Asked? && log[j].t == t && log[j].presented != log[j].current
  }

  ghost predicate AnsweredInVain(setup: Setup, fields: Kept, log: seq<Event>, c: nat, t: Thread) {
    exists reply :: AnsweredSince(log, c, t, reply) && (!reply.supportedType || NoTokenIn(setup, fields, reply))
  }

  /** Why the call that started at `c` may fail, when nothing outside breaks. */
  ghost predicate Reason(setup: Setup, fields: Kept, first: Secrets, log: seq<Event>, c: nat, t: Thread) {
    || AskedStale(log, c, t)
    || AnsweredInVain(setup, fields, log, c, t)
    || (NoRefresh(setup, first) && (!setup.path.Notion? ==> fields.access == ""))
  }

  lemma ReasonStays(setup: Setup, fields: Kept, first: Secrets, log: seq<Event>, e: Event, c: nat, t: Thread)
    requires Reason(setup, fields, first, log, c, t)
    ensures Reason(setup, fields, first, log + [e], c, t)
  {
    if AskedStale(log, c, t) {
      var j :| c < j < |log| && log[j].Asked? && log[j].t == t && log[j].presented != log[j].current;
      assert (log + [e])[j] == log[j];
    } else if AnsweredInVain(setup, fields, log, c, t) {
      var reply :| AnsweredSince(log, c, t, reply) && (!reply.supportedType || NoTokenIn(setup, fields, reply));
      AnswerStays(log, e, c, t, reply);
    }
  }

  // ---------- What every step keeps ----------

  ghost predicate PcReasons(setup: Setup, fields: Kept, first: Secrets, log: seq<Event>, t: Thread, pc: Pc) {
    && (pc.Leaving? && pc.outcome.Failed? ==> Reason(setup, fields, first, log, LastCall(log, t), t))
    && (pc.Storing? ==> pc.reply.rotated != "")
    && (pc.ReadingRefresh? && setup.path.Form? ==> fields.access == "")
  }

  ghost predicate LogReasons(setup: Setup, fields: Kept, first: Secrets, log: seq<Event>) {
    forall i :: 0 <= i < |log| && log[i].Returned? && log[i].outcome.Failed? ==>
      Reason(setup, fields, first, log[..i], LastCall(log[..i], log[i].t), log[i].t)
  }

  /** Every call under way has its start in the log. */
  ghost predicate Started(s: State) {
    forall t: Thread :: !s.At(t).Idle? ==> LastCall(s.log, t) < |s.log|
  }

  ghost predicate Explained(setup: Setup, fields: Kept, first: Secrets, s: State) {
    && Started(s)
    && (NoRefresh(setup, s.secrets) ==> NoRefresh(setup, first))
    && (forall t: Thread :: PcReasons(setup, fields, first, s.log, t, s.At(t)))
    && LogReasons(setup, fields, first, s.log)
  }

  lemma PcReasonsStay(setup: Setup, fields: Kept, first: Secrets, log: seq<Event>, e: Event, t: Thread, pc: Pc)
    requires PcReasons(setup, fields, first, log, t, pc) && !Calls(e, t)
    requires pc.Leaving? ==> LastCall(log, t) < |log|
    ensures PcReasons(setup, fields, first, log + [e], t, pc)
  {
    LastCallAfter(log, e, t);
    if pc.Leaving? && pc.outcome.Failed? {
      ReasonStays(setup, fields, first, log, e, LastCall(log, t), t);
    }
  }

  lemma LogReasonsGrow(setup: Setup, fields: Kept, first: Secrets, log: seq<Event>, e: Event)
    requires LogReasons(setup, fields, first, log)
    requires e.Returned? && e.outcome.Failed? ==> Reason(setup, fields, first, log, LastCall(log, e.t), e.t)
    ensures LogReasons(setup, fields, first, log + [e])
  {
    var after := log + [e];
    forall i | 0 <= i < |after| && after[i].Returned? && after[i].outcome.Failed?
      ensures Reason(setup, fields, first, after[..i], LastCall(after[..i], after[i].t), after[i].t)
    {
      assert after[..i] == log[..i];
      assert i == |log| ==> log[..i] == log;
    }
  }

  /** The events of one step of thread `t`, and what they leave of everybody's reasons. */
  lemma {:induction false} EventsKeepReasons(setup: Setup, fields: Kept, first: Secrets, log: seq<Event>,
                                             more: seq<Event>, t: Thread, u: Thread, pc: Pc)
    requires PcReasons(setup, fields, first, log, u, pc) && OnlyBy(more, t) && u != t
    requires !pc.Idle? ==> LastCall(log, u) < |log|
    ensures PcReasons(setup, fields, first, log + more, u, pc)
    ensures !pc.Idle? ==> LastCall(log + more, u) < |log + more|
  {
    if more == [] {
      assert log + more == log;
    } else {
      var n := |more| - 1;
      assert more[n] in more && forall e :: e in more[..n] ==> e in more;
      EventsKeepReasons(setup, fields, first, log, more[..n], t, u, pc);
      LastCallAfter(log + more[..n], more[n], u);
      PcReasonsStay(setup, fields, first, log + more[..n], more[n], u, pc);
      assert log + more == log + more[..n] + [more[n]];
    }
  }

  /** It is enough to look at the thread that moves, and at the events it logs. */
  lemma MoveKeepsExplained(setup: Setup, fields: Kept, first: Secrets, s: State, t: Thread, s': State,
                           more: seq<Event>)
    requires Explained(setup, fields, first, s)
    requires s'.log == s.log + more && OnlyBy(more, t)
    requires s'.pcs == s.pcs || s'.pcs == s.pcs[t := s'.At(t)]
    requires NoRefresh(setup, s'.secrets) ==> NoRefresh(setup, first)
    requires !s'.At(t).Idle? ==> LastCall(s'.log, t) < |s'.log|
    requires PcReasons(setup, fields, first, s'.log, t, s'.At(t)) && LogReasons(setup, fields, first, s'.log)
    ensures Explained(setup, fields, first, s')
  {
    forall u: Thread
      ensures PcReasons(setup, fields, first, s'.log, u, s'.At(u))
      ensures !s'.At(u).Idle? ==> LastCall(s'.log, u) < |s'.log|
    {
      if u != t {
        assert s'.At(u) == s.At(u);
        EventsKeepReasons(setup, fields, first, s.log, more, t, u, s.At(u));
      }
    }
  }

  /** No call starts or ends. */
  predicate Quiet(more: seq<Event>) {
    forall e :: e in more ==> !e.Called? && !e.Returned?
  }

  lemma {:induction false} QuietLog(setup: Setup, fields: Kept, first: Secrets, log: seq<Event>, more: seq<Event>)
    requires LogReasons(setup, fields, first, log) && Quiet(more)
    ensures LogReasons(setup, fields, first, log + more)
  {
    if more == [] {
      assert log + more == log;
    } else {
      var n := |more| - 1;
      assert more[n] in more && forall e :: e in more[..n] ==> e in more;
      QuietLog(setup, fields, first, log, more[..n]);
      LogReasonsGrow(setup, fields, first, log + more[..n], more[n]);
      assert log + more == log + more[..n] + [more[n]];
    }
  }

  lemma {:induction false} StillStarted(log: seq<Event>, more: seq<Event>, t: Thread)
    requires LastCall(log, t) < |log| && forall e :: e in more ==> !Calls(e, t)
    ensures LastCall(log + more, t) == LastCall(log, t)
  {
    if more == [] {
      assert log + more == log;
    } else {
      var n := |more| - 1;
      assert more[n] in more && forall e :: e in more[..n] ==> e in more;
      StillStarted(log, more[..n], t);
      LastCallAfter(log + more[..n], more[n], t);
      assert log + more == log + more[..n] + [more[n]];
    }
  }

  /** A move within a call. */
  lemma QuietMove(setup: Setup, fields: Kept, first: Secrets, s: State, t: Thread, s': State, more: seq<Event>)
    requires Explained(setup, fields, first, s) && !s.At(t).Idle?
    requires s'.log == s.log + more && Quiet(more)
    requires s'.pcs == s.pcs || s'.pcs == s.pcs[t := s'.At(t)]
    requires NoRefresh(setup, s'.secrets) ==> NoRefresh(setup, first)
    requires PcReasons(setup, fields, first, s'.log, t, s'.At(t))
    ensures Explained(setup, fields, first, s')
  {
    StillStarted(s.log, more, t);
    QuietLog(setup, fields, first, s.log, more);
    MoveKeepsExplained(setup, fields, first, s, t, s', more);
  }

  // ---------- The steps that can fail ----------

  lemma ReadingExplained(setup: Setup, fields: Kept, first: Secrets, s: State, t: Thread, choice: Choice)
    requires Explained(setup, fields, first, s) && Smooth(s, Move(t, choice))
    requires s.At(t).Waiting? || s.At(t).Rechecking? || s.At(t).ReadingFields? || s.At(t).ReadingRefresh?
    requires PcOk(setup, fields, s.log, s.clock, t, s.At(t)) && Fields(setup, s.secrets) == fields
    ensures Explained(setup, fields, first, StepOf(setup, s, t, choice))
  {
    var s' := StepOf(setup, s, t, choice);
    assert PcReasons(setup, fields, first, s.log, t, s.At(t));
    assert s.log + [] == s.log;
    if s'.log == s.log {
      QuietMove(setup, fields, first, s, t, s', []);
    } else {
      QuietMove(setup, fields, first, s, t, s', [Hit(t, s.cache.value, s.clock)]);
    }
  }

  lemma IdleExplained(setup: Setup, fields: Kept, first: Secrets, s: State, t: Thread, choice: Choice)
    requires Explained(setup, fields, first, s) && s.At(t).Idle?
    ensures Explained(setup, fields, first, StepOf(setup, s, t, choice))
  {
    var called := s.To(t, if setup.path.Locks() then Waiting else ReadingRefresh(NoFields)).Log([Called(t, s.clock)]);
    LastCallAfter(s.log, Called(t, s.clock), t);
    LogReasonsGrow(setup, fields, first, s.log, Called(t, s.clock));
    MoveKeepsExplained(setup, fields, first, s, t, called, [Called(t, s.clock)]);
    if Fresh(s.cache, s.clock) {
      QuietMove(setup, fields, first, called, t, StepOf(setup, s, t, choice), [Hit(t, s.cache.value, s.clock)]);
    }
  }

  lemma StaleExplained(setup: Setup, fields: Kept, first: Secrets, s: State, t: Thread, asked: Event, s': State)
    requires Explained(setup, fields, first, s) && s.At(t).Requesting?
    requires asked.Asked? && asked.t == t && asked.presented != asked.current
    requires s' == s.Log([asked]).To(t, Leaving(Failed))
    ensures Explained(setup, fields, first, s')
  {
    var more := [asked];
    LastCallAfter(s.log, asked, t);
    assert s'.log == s.log + more && s'.log[|s.log|] == asked;
    assert AskedStale(s'.log, LastCall(s'.log, t), t);
    QuietMove(setup, fields, first, s, t, s', more);
  }

  lemma AnsweredExplained(setup: Setup, fields: Kept, first: Secrets, s: State, t: Thread, asked: Event, reply: Reply,
                          current: string, s': State)
    requires Explained(setup, fields, first, s) && s.At(t).Requesting? && asked.Asked?
    requires s' == s.Log([asked]).(current := current).To(t, Receiving(s.At(t).seen, reply)).Log([Answered(t, reply)])
    ensures Explained(setup, fields, first, s')
  {
    var more := [asked, Answered(t, reply)];
    assert s'.log == s.log + more;
    QuietMove(setup, fields, first, s, t, s', more);
  }

  lemma AskingExplained(setup: Setup, fields: Kept, first: Secrets, s: State, t: Thread, choice: Choice)
    requires Explained(setup, fields, first, s) && s.At(t).Requesting? && choice.Answer?
    ensures Explained(setup, fields, first, StepOf(setup, s, t, choice))
  {
    var s' := StepOf(setup, s, t, choice);
    var asked := Asked(t, s.At(t).refresh, s.current, s.cache, s.clock);
    if s.At(t).refresh != s.current {
      StaleExplained(setup, fields, first, s, t, asked, s');
    } else {
      AnsweredExplained(setup, fields, first, s, t, asked, choice.reply, s'.current, s');
    }
  }

  /** An answer without a token is a reason. */
  lemma VainAnswer(setup: Setup, fields: Kept, first: Secrets, log: seq<Event>, now: int, t: Thread, pc: Pc)
    requires PcOk(setup, fields, log, now, t, pc) && Pending(pc)
    requires !pc.reply.supportedType || !Usable(setup, TokenOf(setup, pc.seen, pc.reply))
    ensures Reason(setup, fields, first, log, LastCall(log, t), t)
  {
    assert !pc.reply.supportedType || NoTokenIn(setup, fields, pc.reply);
    assert AnsweredInVain(setup, fields, log, LastCall(log, t), t);
  }

  /** The end of a call that fails: the reason is still one. */
  lemma FailingExplained(setup: Setup, fields: Kept, first: Secrets, s: State, t: Thread, more: seq<Event>, s': State)
    requires Explained(setup, fields, first, s) && !s.At(t).Idle?
    requires s' == s.(secrets := s'.secrets).To(t, Leaving(Failed)).Log(more) && (more == [] || more == [Lost])
    requires NoRefresh(setup, s'.secrets) ==> NoRefresh(setup, first)
    requires Reason(setup, fields, first, s.log, LastCall(s.log, t), t)
    ensures Explained(setup, fields, first, s')
  {
    LastCallAfter(s.log, Lost, t);
    ReasonStays(setup, fields, first, s.log, Lost, LastCall(s.log, t), t);
    assert s.log + [] == s.log;
    QuietMove(setup, fields, first, s, t, s', more);
  }

  /** The end of a call that succeeds. */
  lemma SucceedingExplained(setup: Setup, fields: Kept, first: Secrets, s: State, t: Thread, token: Token,
                            more: seq<Event>, s': State)
    requires Explained(setup, fields, first, s) && !s.At(t).Idle?
    requires s'.log == s.log + more && s'.pcs == s.pcs[t := Leaving(Got(token, FromReply))]
    requires Quiet(more) && (NoRefresh(setup, s'.secrets) ==> NoRefresh(setup, first))
    ensures Explained(setup, fields, first, s')
  {
    QuietMove(setup, fields, first, s, t, s', more);
  }

  /** What dealing with an answer logs at its end: nothing, or that a replacement was lost. */
  function SettlingEvents(setup: Setup, s: State, reply: Reply): seq<Event> {
    if reply.rotated != "" && Presents(setup, s.secrets) != reply.rotated then [Lost] else []
  }

  lemma GiveLogs(setup: Setup, s: State, t: Thread, reply: Reply, outcome: Outcome)
    ensures Give(setup, s, t, reply, outcome) == s.To(t, Leaving(outcome)).Log(SettlingEvents(setup, s, reply))
  {
    assert s.log + [] == s.log;
  }

  lemma ReceivingExplained(setup: Setup, fields: Kept, first: Secrets, s: State, t: Thread, choice: Choice)
    requires Explained(setup, fields, first, s) && s.At(t).Receiving? && Smooth(s, Move(t, choice))
    requires PcOk(setup, fields, s.log, s.clock, t, s.At(t))
    ensures Explained(setup, fields, first, StepOf(setup, s, t, choice))
  {
    var Receiving(seen, reply) := s.At(t);
    var s' := StepOf(setup, s, t, choice);
    assert s.log + [] == s.log;
    if s'.At(t).Leaving? {
      VainAnswer(setup, fields, first, s.log, s.clock, t, s.At(t));
      GiveLogs(setup, s, t, reply, Failed);
      FailingExplained(setup, fields, first, s, t, SettlingEvents(setup, s, reply), s');
    } else {
      QuietMove(setup, fields, first, s, t, s', []);
    }
  }

  lemma StoringExplained(setup: Setup, fields: Kept, first: Secrets, s: State, t: Thread, choice: Choice)
    requires Explained(setup, fields, first, s) && s.At(t).Storing? && Smooth(s, Move(t, choice))
    requires PcOk(setup, fields, s.log, s.clock, t, s.At(t))
    ensures Explained(setup, fields, first, StepOf(setup, s, t, choice))
  {
    var Storing(seen, reply) := s.At(t);
    assert PcReasons(setup, fields, first, s.log, t, s.At(t));
    var s' := StepOf(setup, s, t, choice);
    var stored := s.(secrets := s.secrets.(refresh := Some(reply.rotated)));
    assert s.log + [] == s.log;
    if s'.At(t).Caching? {
      QuietMove(setup, fields, first, s, t, s', []);
    } else if setup.path.Generic? {
      VainAnswer(setup, fields, first, s.log, s.clock, t, s.At(t));
      GiveLogs(setup, stored, t, reply, Failed);
      FailingExplained(setup, fields, first, s, t, SettlingEvents(setup, stored, reply), s');
    } else {
      var token := TokenOf(setup, seen, reply);
      GiveLogs(setup, stored, t, reply, Got(token, FromReply));
      SucceedingExplained(setup, fields, first, s, t, token, SettlingEvents(setup, stored, reply), s');
    }
  }

  /** The token is cached and, next, the replacement stored. */
  lemma CachedThenStoringExplained(setup: Setup, fields: Kept, first: Secrets, s: State, t: Thread, token: Token,
                                   expiresAt: int, s': State)
    requires Explained(setup, fields, first, s)
    requires s.At(t).Caching? && s.At(t).reply.rotated != ""
    requires s' == PutCache(s, t, token, expiresAt).To(t, Storing(s.At(t).seen, s.At(t).reply))
    ensures Explained(setup, fields, first, s')
  {
    var more := [Cached(t, token, expiresAt, s.clock)];
    QuietMove(setup, fields, first, s, t, s', more);
  }

  /** The token is cached, and the call is done. */
  lemma CachedThenGivenExplained(setup: Setup, fields: Kept, first: Secrets, s: State, t: Thread, token: Token,
                                 expiresAt: int, reply: Reply, s': State)
    requires Explained(setup, fields, first, s) && !s.At(t).Idle?
    requires s' == Give(setup, PutCache(s, t, token, expiresAt), t, reply, Got(token, FromReply))
    ensures Explained(setup, fields, first, s')
  {
    var cached := PutCache(s, t, token, expiresAt);
    GiveLogs(setup, cached, t, reply, Got(token, FromReply));
    var all := [Cached(t, token, expiresAt, s.clock)] + SettlingEvents(setup, cached, reply);
    assert s'.log == s.log + all;
    SucceedingExplained(setup, fields, first, s, t, token, all, s');
  }

  lemma CachingExplained(setup: Setup, fields: Kept, first: Secrets, s: State, t: Thread, choice: Choice)
    requires Explained(setup, fields, first, s) && s.At(t).Caching?
    ensures Explained(setup, fields, first, StepOf(setup, s, t, choice))
  {
    var Caching(seen, reply) := s.At(t);
    var (token, expiresAt) := (TokenOf(setup, seen, reply), s.clock + Lifetime(setup, seen, reply));
    var s' := StepOf(setup, s, t, choice);
    CachingStep(setup, s, t, choice, expiresAt);
    if !setup.path.Generic? && reply.rotated != "" {
      CachedThenStoringExplained(setup, fields, first, s, t, token, expiresAt, s');
    } else {
      CachedThenGivenExplained(setup, fields, first, s, t, token, expiresAt, reply, s');
    }
  }

  lemma CachingStoredExplained(setup: Setup, fields: Kept, first: Secrets, s: State, t: Thread, choice: Choice)
    requires Explained(setup, fields, first, s) && s.At(t).CachingStored?
    ensures Explained(setup, fields, first, StepOf(setup, s, t, choice))
  {
    var expiresAt := s.clock + TEN_YEARS;
    StoredExplained(setup, fields, first, s, t, s.At(t).token, expiresAt, StepOf(setup, s, t, choice));
  }

  lemma StoredExplained(setup: Setup, fields: Kept, first: Secrets, s: State, t: Thread, token: Token, expiresAt: int,
                        s': State)
    requires Explained(setup, fields, first, s) && !s.At(t).Idle?
    requires s' == PutCache(s, t, token, expiresAt).To(t, Leaving(Got(token, FromSecrets)))
    ensures Explained(setup, fields, first, s')
  {
    var more := [Cached(t, token, expiresAt, s.clock)];
    QuietMove(setup, fields, first, s, t, s', more);
  }

  lemma LeavingExplained(setup: Setup, fields: Kept, first: Secrets, s: State, t: Thread, choice: Choice)
    requires Explained(setup, fields, first, s) && s.At(t).Leaving?
    ensures Explained(setup, fields, first, StepOf(setup, s, t, choice))
  {
    LeavingStep(setup, s, t, choice);
    assert PcReasons(setup, fields, first, s.log, t, s.At(t));
    var s' := StepOf(setup, s, t, choice);
    var returned := Returned(t, s.clock, s.At(t).outcome);
    var released := Released(t, s.secrets.refresh, Presents(setup, s.secrets), s.current);
    if setup.path.Locks() && s.lock != Some(t) {
      LogReasonsGrow(setup, fields, first, s.log, returned);
      MoveKeepsExplained(setup, fields, first, s, t, s', [returned]);
    } else {
      PcReasonsStay(setup, fields, first, s.log, released, t, s.At(t));
      LogReasonsGrow(setup, fields, first, s.log, released);
      LogReasonsGrow(setup, fields, first, s.log + [released], returned);
      assert s'.log == s.log + [released, returned];
      MoveKeepsExplained(setup, fields, first, s, t, s', [released, returned]);
    }
  }

  lemma NextKeepsExplained(setup: Setup, fields: Kept, first: Secrets, s: State, action: Action)
    requires Good(setup, fields, s) && Explained(setup, fields, first, s) && Smooth(s, action)
    ensures Explained(setup, fields, first, Next(setup, s, action))
  {
    match action
    case Tick(delay) =>
      assert forall t: Thread :: Next(setup, s, action).At(t) == s.At(t);
    case Move(t, choice) =>
      assert PcOk(setup, fields, s.log, s.clock, t, s.At(t));
      match s.At(t) {
        case Idle => IdleExplained(setup, fields, first, s, t, choice);
        case CachingStored(_) => CachingStoredExplained(setup, fields, first, s, t, choice);
        case Requesting(_, _) => AskingExplained(setup, fields, first, s, t, choice);
        case Receiving(_, _) => ReceivingExplained(setup, fields, first, s, t, choice);
        case Caching(_, _) => CachingExplained(setup, fields, first, s, t, choice);
        case Storing(_, _) => StoringExplained(setup, fields, first, s, t, choice);
        case Leaving(_) => LeavingExplained(setup, fields, first, s, t, choice);
        case _ => ReadingExplained(setup, fields, first, s, t, choice);
      }
  }

  lemma {:induction false} SmoothRunsAreExplained(setup: Setup, s: State, actions: seq<Action>)
    requires Initial(setup, s) && SmoothRun(setup, s, actions)
    ensures Explained(setup, Fields(setup, s.secrets), s.secrets, Exec(setup, s, actions))
  {
    if actions == [] {
      assert forall t: Thread :: s.At(t).Idle?;
    } else {
      var init := actions[..|actions| - 1];
      assert forall j :: 0 <= j < |init| ==> init[..j] == actions[..j] && init[j] == actions[j];
      SmoothRunsAreExplained(setup, s, init);
      RunsAreGood(setup, s, init);
      NextKeepsExplained(setup, Fields(setup, s.secrets), s.secrets, Exec(setup, s, init), actions[|actions| - 1]);
    }
  }

  /**
   In every interleaving on every path in which the store, the network and the endpoint do their
   part, a call fails only because it presented a refresh token that was no longer current, because
   the answer to it had no token of a supported type, or because there was no refresh token to
   present, at the start of the run already, and no access token stored or configured to fall back to.
   */
  lemma FailsOnlyWhen(setup: Setup, s: State, actions: seq<Action>, i: nat)
    requires Initial(setup, s) && SmoothRun(setup, s, actions)
    requires i < |Exec(setup, s, actions).log|
    requires Exec(setup, s, actions).log[i].Returned? && Exec(setup, s, actions).log[i].outcome.Failed?
    ensures var before := Exec(setup, s, actions).log[..i];
            var t := Exec(setup, s, actions).log[i].t;
            Reason(setup, Fields(setup, s.secrets), s.secrets, before, LastCall(before, t), t)
  {
    SmoothRunsAreExplained(setup, s, actions);
  }
}
