/**
 What each call of a token refresh returns, in every interleaving of any calls on any path, with or
 without a lock: a cached token that was held and good for long enough when this call looked, the
 stored token, or a token out of an answer to this call; and what is cached, and for how long.
 */
module TokenRefreshCalls {
  import opened Wrappers
  import opened TokenRefresh

  // ---------- The log of one call ----------

  predicate Calls(e: Event, t: Thread) {
    e.Called? && e.t == t
  }

  predicate Returns(e: Event, t: Thread) {
    e.Returned? && e.t == t
  }

  /** Where the thread's last call starts in the log; the log's length when there is none. */
  function LastCall(log: seq<Event>, t: Thread): (c: nat)
    ensures c <= |log|
    ensures c < |log| ==> Calls(log[c], t)
    ensures forall j :: c < j < |log| ==> !Calls(log[j], t)
  {
    if log == [] then 0
    else
      var n := |log| - 1;
      if Calls(log[n], t) then n
      else
        var c := LastCall(log[..n], t);
        assert forall j :: 0 <= j < n ==> log[..n][j] == log[j];
        if c == n then |log| else c
  }

  /** What the cache holds: the last entry that was put there. */
  function Held(log: seq<Event>): Option<CacheEntry> {
    if log == [] then None
    else
      var last := log[|log| - 1];
      if last.Cached? then Some(CacheEntry(last.token, last.expiresAt)) else Held(log[..|log| - 1])
  }

  /** At this place of the log the thread took `token` from the cache, between `start` and `now`. */
  predicate HitAt(log: seq<Event>, j: nat, t: Thread, token: Token, start: int, now: int)
    requires j < |log|
  {
    && log[j].Hit? && log[j].t == t && log[j].entry.token == token
    && Held(log[..j]) == Some(log[j].entry)
    && log[j].entry.expiresAt - log[j].at > 30
    && start <= log[j].at <= now
  }

  ghost predicate HitSince(log: seq<Event>, c: nat, t: Thread, token: Token, start: int, now: int) {
    exists j :: c < j < |log| && HitAt(log, j, t, token, start, now)
  }

  ghost predicate AnsweredSince(log: seq<Event>, c: nat, t: Thread, reply: Reply) {
    exists j :: c < j < |log| && log[j] == Answered(t, reply)
  }

  /** The call has put this token in the cache. */
  ghost predicate CachedSince(log: seq<Event>, c: nat, t: Thread, token: Token) {
    exists j :: c < j < |log| && log[j].Cached? && log[j].t == t && log[j].token == token
  }

  // ---------- The fields a call starts from ----------

  /** The stored or configured access token and identity token, and the stored lifetime; no step ever changes them. */
  datatype Kept = Kept(access: string, idToken: string, expiresIn: int)

  function Fields(setup: Setup, secrets: Secrets): Kept {
    if setup.path.Generic? then Kept(secrets.access, secrets.idToken, secrets.expiresIn)
    else Kept(if setup.staticAccess != "" then setup.staticAccess else secrets.access, "", 0)
  }

  predicate SameFields(setup: Setup, fields: Kept, seen: Secrets) {
    setup.path.Generic? ==>
      seen.access == fields.access && seen.idToken == fields.idToken && seen.expiresIn == fields.expiresIn
  }

  predicate IsKept(fields: Kept, token: Token) {
    token.access == fields.access && token.idToken == fields.idToken
  }

  /**
   The token an answer yields, field by field. A generic service has what the answer says, and the
   stored field where it says nothing, and at least one of the two tokens; the others have the
   answer's access token alone, which is not empty.
   */
  predicate TakenFrom(setup: Setup, fields: Kept, reply: Reply, token: Token) {
    if setup.path.Generic? then
      && token.access == (match reply.access case Some(access) => access case None => fields.access)
      && token.idToken == (match reply.idToken case Some(idToken) => idToken case None => fields.idToken)
      && (token.access != "" || token.idToken != "")
    else reply.access == Some(token.access) && token.access != "" && token.idToken == ""
  }

  /** How many seconds it is cached: what the answer says, for generic services else what is stored, else an hour. */
  predicate CachedFor(setup: Setup, fields: Kept, reply: Reply, seconds: int) {
    match reply.expiresIn
    case Some(said) => seconds == if said > 0 then said else 3600
    case None => seconds == if setup.path.Generic? && fields.expiresIn > 0 then fields.expiresIn else 3600
  }

  ghost predicate FromOwnAnswer(setup: Setup, fields: Kept, log: seq<Event>, c: nat, t: Thread, token: Token) {
    exists reply :: AnsweredSince(log, c, t, reply) && TakenFrom(setup, fields, reply, token)
  }

  ghost predicate CachedFromOwnAnswer(setup: Setup, fields: Kept, log: seq<Event>, c: nat, t: Thread, token: Token,
                                      seconds: int) {
    exists reply ::
      && AnsweredSince(log, c, t, reply) && TakenFrom(setup, fields, reply, token)
      && CachedFor(setup, fields, reply, seconds)
  }

  // ---------- What holds of a call under way ----------

  ghost predicate OutcomeOk(setup: Setup, fields: Kept, log: seq<Event>, t: Thread, now: int, outcome: Outcome) {
    var c := LastCall(log, t);
    match outcome
    case Failed => true
    case Got(token, FromCache) => c < |log| && HitSince(log, c, t, token, log[c].at, now)
    case Got(token, FromSecrets) => IsKept(fields, token) && token.access != "" && CachedSince(log, c, t, token)
    case Got(token, FromReply) => FromOwnAnswer(setup, fields, log, c, t, token) && CachedSince(log, c, t, token)
  }

  /** The call started no later than now, and has not returned. */
  ghost predicate UnderWay(log: seq<Event>, t: Thread, now: int) {
    var c := LastCall(log, t);
    c < |log| && log[c].at <= now && forall j :: c < j < |log| ==> !Returns(log[j], t)
  }

  ghost predicate PcOk(setup: Setup, fields: Kept, log: seq<Event>, now: int, t: Thread, pc: Pc) {
    && (!pc.Idle? ==> UnderWay(log, t, now))
    && (pc.ReadingRefresh? || pc.Requesting? || Pending(pc) ==> SameFields(setup, fields, pc.seen))
    && (pc.ReadingRefresh? && !setup.path.Generic? ==> pc.seen == NoFields)
    && (pc.CachingStored? ==> IsKept(fields, pc.token) && pc.token.access != "")
    && (pc.Caching? || (pc.Storing? && !setup.path.Generic?) ==> Usable(setup, TokenOf(setup, pc.seen, pc.reply)))
    && (pc.Storing? && !setup.path.Generic? ==>
          CachedSince(log, LastCall(log, t), t, TokenOf(setup, pc.seen, pc.reply)))
    && (Pending(pc) ==> AnsweredSince(log, LastCall(log, t), t, pc.reply))
    && (pc.Leaving? ==> OutcomeOk(setup, fields, log, t, now, pc.outcome))
  }

  /** A call caches the stored token for ten years, or a token out of an answer it got for that answer's time. */
  ghost predicate CachedOk(setup: Setup, fields: Kept, before: seq<Event>, t: Thread, token: Token, expiresAt: int,
                           at: int) {
    && UnderWay(before, t, at)
    && (|| (IsKept(fields, token) && token.access != "" && expiresAt - at == 10 * 365 * 24 * 3600)
        || CachedFromOwnAnswer(setup, fields, before, LastCall(before, t), t, token, expiresAt - at))
  }

  ghost predicate EventOk(setup: Setup, fields: Kept, before: seq<Event>, e: Event) {
    match e
    case Returned(t, at, outcome) => UnderWay(before, t, at) && OutcomeOk(setup, fields, before, t, at, outcome)
    case Asked(_, _, _, cache, _) => cache == Held(before)
    case Cached(t, token, expiresAt, at) => CachedOk(setup, fields, before, t, token, expiresAt, at)
    case _ => true
  }

  ghost predicate LogOk(setup: Setup, fields: Kept, log: seq<Event>) {
    forall i :: 0 <= i < |log| ==> EventOk(setup, fields, log[..i], log[i])
  }

  ghost predicate Good(setup: Setup, fields: Kept, s: State) {
    && Fields(setup, s.secrets) == fields && Held(s.log) == s.cache
    && (forall t: Thread :: PcOk(setup, fields, s.log, s.clock, t, s.At(t)))
    && LogOk(setup, fields, s.log)
  }

  // ---------- One more event ----------

  lemma LastCallAfter(log: seq<Event>, e: Event, t: Thread)
    ensures LastCall(log + [e], t) ==
              if Calls(e, t) then |log| else if LastCall(log, t) == |log| then |log| + 1 else LastCall(log, t)
  {
    assert (log + [e])[..|log|] == log;
  }

  lemma HeldAfter(log: seq<Event>, e: Event)
    ensures Held(log + [e]) == if e.Cached? then Some(CacheEntry(e.token, e.expiresAt)) else Held(log)
  {
    assert (log + [e])[..|log|] == log;
  }

  lemma LogGrows(setup: Setup, fields: Kept, log: seq<Event>, e: Event)
    requires LogOk(setup, fields, log) && EventOk(setup, fields, log, e)
    ensures LogOk(setup, fields, log + [e])
  {
    var after := log + [e];
    forall i | 0 <= i < |after| ensures EventOk(setup, fields, after[..i], after[i]) {
      assert after[..i] == log[..i];
      assert i == |log| ==> log[..i] == log;
    }
  }

  lemma HitStays(log: seq<Event>, e: Event, c: nat, t: Thread, token: Token, start: int, now: int, later: int)
    requires HitSince(log, c, t, token, start, now) && now <= later
    ensures HitSince(log + [e], c, t, token, start, later)
  {
    var j :| c < j < |log| && HitAt(log, j, t, token, start, now);
    assert (log + [e])[..j] == log[..j];
    assert HitAt(log + [e], j, t, token, start, later);
  }

  lemma AnswerStays(log: seq<Event>, e: Event, c: nat, t: Thread, reply: Reply)
    requires AnsweredSince(log, c, t, reply)
    ensures AnsweredSince(log + [e], c, t, reply)
  {
    var j :| c < j < |log| && log[j] == Answered(t, reply);
    assert (log + [e])[j] == Answered(t, reply);
  }

  lemma CachedStays(log: seq<Event>, e: Event, c: nat, t: Thread, token: Token)
    requires CachedSince(log, c, t, token)
    ensures CachedSince(log + [e], c, t, token)
  {
    var j :| c < j < |log| && log[j].Cached? && log[j].t == t && log[j].token == token;
    assert (log + [e])[j] == log[j];
  }

  lemma OutcomeStays(setup: Setup, fields: Kept, log: seq<Event>, e: Event, t: Thread, now: int, later: int,
                     outcome: Outcome)
    requires OutcomeOk(setup, fields, log, t, now, outcome) && !Calls(e, t) && LastCall(log, t) < |log| && now <= later
    ensures OutcomeOk(setup, fields, log + [e], t, later, outcome)
  {
    var c := LastCall(log, t);
    LastCallAfter(log, e, t);
    match outcome
    case Failed =>
    case Got(token, FromCache) => HitStays(log, e, c, t, token, log[c].at, now, later);
    case Got(token, FromSecrets) => CachedStays(log, e, c, t, token);
    case Got(token, FromReply) =>
      CachedStays(log, e, c, t, token);
      var reply :| AnsweredSince(log, c, t, reply) && TakenFrom(setup, fields, reply, token);
      AnswerStays(log, e, c, t, reply);
  }

  lemma UnderWayStays(log: seq<Event>, e: Event, t: Thread, now: int, later: int)
    requires UnderWay(log, t, now) && !Calls(e, t) && !Returns(e, t) && now <= later
    ensures UnderWay(log + [e], t, later) && LastCall(log + [e], t) == LastCall(log, t)
  {
    LastCallAfter(log, e, t);
  }

  lemma PcStays(setup: Setup, fields: Kept, log: seq<Event>, e: Event, now: int, later: int, t: Thread, pc: Pc)
    requires PcOk(setup, fields, log, now, t, pc) && !Calls(e, t) && !Returns(e, t) && now <= later
    ensures PcOk(setup, fields, log + [e], later, t, pc)
  {
    if !pc.Idle? {
      UnderWayStays(log, e, t, now, later);
      if Pending(pc) {
        AnswerStays(log, e, LastCall(log, t), t, pc.reply);
        if pc.Storing? && !setup.path.Generic? {
          CachedStays(log, e, LastCall(log, t), t, TokenOf(setup, pc.seen, pc.reply));
        }
      } else if pc.Leaving? {
        OutcomeStays(setup, fields, log, e, t, now, later, pc.outcome);
      }
    }
  }

  // ---------- Steps ----------

  /** Events that start and end calls of no thread but this one. */
  predicate OnlyBy(more: seq<Event>, t: Thread) {
    forall e :: e in more ==> (e.Called? || e.Returned? ==> e.t == t)
  }

  lemma {:induction false} OthersStay(setup: Setup, fields: Kept, log: seq<Event>, more: seq<Event>, now: int,
                                      t: Thread,
                                      u: Thread, pc: Pc)
    requires PcOk(setup, fields, log, now, u, pc) && OnlyBy(more, t) && u != t
    ensures PcOk(setup, fields, log + more, now, u, pc)
  {
    if more == [] {
      assert log + more == log;
    } else {
      var n := |more| - 1;
      assert more[n] in more && forall e :: e in more[..n] ==> e in more;
      OthersStay(setup, fields, log, more[..n], now, t, u, pc);
      PcStays(setup, fields, log + more[..n], more[n], now, now, u, pc);
      assert log + more == log + more[..n] + [more[n]];
    }
  }

  /** It is enough to look at the thread that moves. */
  lemma MoveKeepsGood(setup: Setup, fields: Kept, s: State, t: Thread, s': State, more: seq<Event>)
    requires Good(setup, fields, s) && s'.log == s.log + more && OnlyBy(more, t) && s'.clock == s.clock
    requires s'.pcs == s.pcs || s'.pcs == s.pcs[t := s'.At(t)]
    requires Fields(setup, s'.secrets) == fields && Held(s'.log) == s'.cache && LogOk(setup, fields, s'.log)
    requires PcOk(setup, fields, s'.log, s.clock, t, s'.At(t))
    ensures Good(setup, fields, s')
  {
    forall u: Thread ensures PcOk(setup, fields, s'.log, s'.clock, u, s'.At(u)) {
      if u != t {
        assert s'.At(u) == s.At(u);
        OthersStay(setup, fields, s.log, more, s.clock, t, u, s.At(u));
      }
    }
  }

  /** A move without an event, to a place where no more is asked than was known. */
  lemma SilentMove(setup: Setup, fields: Kept, s: State, t: Thread, s': State)
    requires Good(setup, fields, s) && s'.log == s.log && s'.clock == s.clock && s'.cache == s.cache
    requires s'.pcs == s.pcs || s'.pcs == s.pcs[t := s'.At(t)]
    requires Fields(setup, s'.secrets) == fields && PcOk(setup, fields, s.log, s.clock, t, s'.At(t))
    ensures Good(setup, fields, s')
  {
    assert s'.log == s.log + [];
    MoveKeepsGood(setup, fields, s, t, s', []);
  }

  /** A move with one event that neither starts nor ends a call and puts nothing in the cache. */
  lemma LoudMove(setup: Setup, fields: Kept, s: State, t: Thread, s': State, e: Event)
    requires Good(setup, fields, s) && s'.log == s.log + [e] && s'.clock == s.clock && s'.cache == s.cache
    requires !e.Called? && !e.Returned? && !e.Cached? && (e.Asked? ==> e.cache == s.cache)
    requires s'.pcs == s.pcs || s'.pcs == s.pcs[t := s'.At(t)]
    requires Fields(setup, s'.secrets) == fields && PcOk(setup, fields, s.log + [e], s.clock, t, s'.At(t))
    ensures Good(setup, fields, s')
  {
    LogGrows(setup, fields, s.log, e);
    HeldAfter(s.log, e);
    MoveKeepsGood(setup, fields, s, t, s', [e]);
  }

  lemma TakingIsGood(setup: Setup, fields: Kept, s: State, t: Thread)
    requires Good(setup, fields, s) && UnderWay(s.log, t, s.clock) && Fresh(s.cache, s.clock)
    ensures Good(setup, fields, TakeCached(s, t))
  {
    var hit := Hit(t, s.cache.value, s.clock);
    var c := LastCall(s.log, t);
    UnderWayStays(s.log, hit, t, s.clock, s.clock);
    assert (s.log + [hit])[..|s.log|] == s.log;
    assert HitAt(s.log + [hit], |s.log|, t, s.cache.value.token, s.log[c].at, s.clock);
    LoudMove(setup, fields, s, t, TakeCached(s, t), hit);
  }

  lemma CallingIsGood(setup: Setup, fields: Kept, s: State, t: Thread)
    requires Good(setup, fields, s) && s.At(t).Idle?
    ensures UnderWay(s.log + [Called(t, s.clock)], t, s.clock)
    ensures Good(setup, fields, s.Log([Called(t, s.clock)]))
  {
    var called := Called(t, s.clock);
    LastCallAfter(s.log, called, t);
    LogGrows(setup, fields, s.log, called);
    HeldAfter(s.log, called);
    MoveKeepsGood(setup, fields, s, t, s.Log([called]), [called]);
  }

  lemma IdleIsGood(setup: Setup, fields: Kept, s: State, t: Thread, choice: Choice)
    requires Good(setup, fields, s) && s.At(t).Idle?
    ensures Good(setup, fields, StepOf(setup, s, t, choice))
  {
    var called := s.Log([Called(t, s.clock)]);
    CallingIsGood(setup, fields, s, t);
    if Fresh(s.cache, s.clock) {
      TakingIsGood(setup, fields, called, t);
    } else {
      SilentMove(setup, fields, called, t,
                 called.To(t, if setup.path.Locks() then Waiting else ReadingRefresh(NoFields)));
    }
  }

  lemma ReadingIsGood(setup: Setup, fields: Kept, s: State, t: Thread, choice: Choice)
    requires Good(setup, fields, s)
    requires s.At(t).Waiting? || s.At(t).Rechecking? || s.At(t).ReadingFields? || s.At(t).ReadingRefresh?
    ensures Good(setup, fields, StepOf(setup, s, t, choice))
  {
    assert PcOk(setup, fields, s.log, s.clock, t, s.At(t));
    if s.At(t).Rechecking? && Fresh(s.cache, s.clock) {
      TakingIsGood(setup, fields, s, t);
    } else {
      SilentMove(setup, fields, s, t, StepOf(setup, s, t, choice));
    }
  }

  lemma CachingKeepsGood(setup: Setup, fields: Kept, s: State, t: Thread, token: Token, expiresAt: int)
    requires Good(setup, fields, s) && CachedOk(setup, fields, s.log, t, token, expiresAt, s.clock)
    ensures Good(setup, fields, PutCache(s, t, token, expiresAt))
    ensures var log := PutCache(s, t, token, expiresAt).log; CachedSince(log, LastCall(log, t), t, token)
  {
    var cached := Cached(t, token, expiresAt, s.clock);
    LastCallAfter(s.log, cached, t);
    assert (s.log + [cached])[|s.log|] == cached;
    LogGrows(setup, fields, s.log, cached);
    HeldAfter(s.log, cached);
    PcStays(setup, fields, s.log, cached, s.clock, s.clock, t, s.At(t));
    MoveKeepsGood(setup, fields, s, t, PutCache(s, t, token, expiresAt), [cached]);
  }

  lemma KeptIsGood(setup: Setup, fields: Kept, s: State, t: Thread, token: Token, expiresAt: int, s': State)
    requires Good(setup, fields, s) && s.At(t) == CachingStored(token)
    requires CachedOk(setup, fields, s.log, t, token, expiresAt, s.clock)
    requires s' == PutCache(s, t, token, expiresAt).To(t, Leaving(Got(token, FromSecrets)))
    ensures Good(setup, fields, s')
  {
    var cached := PutCache(s, t, token, expiresAt);
    CachingKeepsGood(setup, fields, s, t, token, expiresAt);
    assert PcOk(setup, fields, cached.log, cached.clock, t, cached.At(t));
    SilentMove(setup, fields, cached, t, s');
  }

  lemma CachingStoredIsGood(setup: Setup, fields: Kept, s: State, t: Thread, choice: Choice)
    requires Good(setup, fields, s) && s.At(t).CachingStored?
    ensures Good(setup, fields, StepOf(setup, s, t, choice))
  {
    var token, expiresAt := s.At(t).token, s.clock + TEN_YEARS;
    assert PcOk(setup, fields, s.log, s.clock, t, s.At(t));
    KeptIsGood(setup, fields, s, t, token, expiresAt, StepOf(setup, s, t, choice));
  }

  lemma AnswerIsGood(setup: Setup, fields: Kept, s: State, t: Thread, seen: Secrets, reply: Reply, current: string)
    requires Good(setup, fields, s) && SameFields(setup, fields, seen) && UnderWay(s.log, t, s.clock)
    ensures Good(setup, fields, s.(current := current).To(t, Receiving(seen, reply)).Log([Answered(t, reply)]))
  {
    var e := Answered(t, reply);
    UnderWayStays(s.log, e, t, s.clock, s.clock);
    assert (s.log + [e])[|s.log|] == e;
    assert AnsweredSince(s.log + [e], LastCall(s.log, t), t, reply);
    LoudMove(setup, fields, s, t, s.(current := current).To(t, Receiving(seen, reply)).Log([e]), e);
  }

  lemma AskingIsGood(setup: Setup, fields: Kept, s: State, t: Thread, seen: Secrets, refresh: string, choice: Choice)
    requires Good(setup, fields, s) && s.At(t) == Requesting(seen, refresh)
    ensures Good(setup, fields, Ask(setup, s, t, seen, refresh, choice))
  {
    var e := Asked(t, refresh, s.current, s.cache, s.clock);
    var asked := s.Log([e]);
    assert PcOk(setup, fields, s.log, s.clock, t, s.At(t));
    if choice.Answer? || choice.Refuse? {
      PcStays(setup, fields, s.log, e, s.clock, s.clock, t, s.At(t));
      LoudMove(setup, fields, s, t, asked, e);
      if choice.Answer? && refresh == s.current {
        var current := if choice.reply.rotated != "" then choice.reply.rotated else s.current;
        AnswerIsGood(setup, fields, asked, t, seen, choice.reply, current);
      } else {
        SilentMove(setup, fields, asked, t, asked.To(t, Leaving(Failed)));
      }
    } else {
      SilentMove(setup, fields, s, t, s.To(t, Leaving(Failed)));
    }
  }

  /** The end of dealing with a reply: its token is out of an answer to this call. */
  lemma GivingIsGood(setup: Setup, fields: Kept, s: State, t: Thread, reply: Reply, outcome: Outcome)
    requires Good(setup, fields, s) && PcOk(setup, fields, s.log, s.clock, t, Leaving(outcome))
    ensures Good(setup, fields, Give(setup, s, t, reply, outcome))
  {
    if Settle(setup, s, reply) == s {
      SilentMove(setup, fields, s, t, s.To(t, Leaving(outcome)));
    } else {
      PcStays(setup, fields, s.log, Lost, s.clock, s.clock, t, Leaving(outcome));
      LoudMove(setup, fields, s, t, s.Log([Lost]).To(t, Leaving(outcome)), Lost);
    }
  }

  lemma OwnTokenIsOk(setup: Setup, fields: Kept, s: State, t: Thread)
    requires Good(setup, fields, s) && Pending(s.At(t))
    ensures PcOk(setup, fields, s.log, s.clock, t, Leaving(Failed))
    ensures var token := TokenOf(setup, s.At(t).seen, s.At(t).reply);
            Usable(setup, token) && CachedSince(s.log, LastCall(s.log, t), t, token)
            ==> PcOk(setup, fields, s.log, s.clock, t, Leaving(Got(token, FromReply)))
  {
    var pc := s.At(t);
    assert PcOk(setup, fields, s.log, s.clock, t, pc);
    var token := TokenOf(setup, pc.seen, pc.reply);
    if Usable(setup, token) {
      assert TakenFrom(setup, fields, pc.reply, token);
      assert FromOwnAnswer(setup, fields, s.log, LastCall(s.log, t), t, token);
    }
  }

  /** What is cached of an answer is its token, for its time. */
  lemma OwnTokenIsCached(setup: Setup, fields: Kept, s: State, t: Thread, seen: Secrets, reply: Reply, seconds: int)
    requires Good(setup, fields, s) && s.At(t) == Caching(seen, reply) && seconds == Lifetime(setup, seen, reply)
    ensures UnderWay(s.log, t, s.clock)
    ensures CachedFromOwnAnswer(setup, fields, s.log, LastCall(s.log, t), t, TokenOf(setup, seen, reply), seconds)
  {
    assert PcOk(setup, fields, s.log, s.clock, t, s.At(t));
    assert TakenFrom(setup, fields, reply, TokenOf(setup, seen, reply));
    assert CachedFor(setup, fields, reply, seconds);
  }

  lemma ReceivingIsGood(setup: Setup, fields: Kept, s: State, t: Thread, choice: Choice)
    requires Good(setup, fields, s) && s.At(t).Receiving?
    ensures Good(setup, fields, StepOf(setup, s, t, choice))
  {
    OwnTokenIsOk(setup, fields, s, t);
    var Receiving(seen, reply) := s.At(t);
    if StepOf(setup, s, t, choice) == Give(setup, s, t, reply, Failed) {
      GivingIsGood(setup, fields, s, t, reply, Failed);
    } else {
      assert PcOk(setup, fields, s.log, s.clock, t, s.At(t));
      SilentMove(setup, fields, s, t, StepOf(setup, s, t, choice));
    }
  }

  /** The token is cached and, next, the replacement stored, or the call is done. */
  lemma CachedIsGood(setup: Setup, fields: Kept, s: State, t: Thread, seen: Secrets, reply: Reply, expiresAt: int)
    requires Good(setup, fields, s) && s.At(t) == Caching(seen, reply)
    requires expiresAt == s.clock + Lifetime(setup, seen, reply)
    ensures var token := TokenOf(setup, seen, reply);
            var cached := PutCache(s, t, token, expiresAt);
            && Good(setup, fields, cached.To(t, Storing(seen, reply)))
            && Good(setup, fields, Give(setup, cached, t, reply, Got(token, FromReply)))
  {
    var token := TokenOf(setup, seen, reply);
    var cached := PutCache(s, t, token, expiresAt);
    var seconds := expiresAt - s.clock;
    OwnTokenIsCached(setup, fields, s, t, seen, reply, seconds);
    CachingKeepsGood(setup, fields, s, t, token, expiresAt);
    OwnTokenIsOk(setup, fields, cached, t);
    assert PcOk(setup, fields, cached.log, cached.clock, t, cached.At(t));
    SilentMove(setup, fields, cached, t, cached.To(t, Storing(seen, reply)));
    GivingIsGood(setup, fields, cached, t, reply, Got(token, FromReply));
  }

  lemma CachingIsGood(setup: Setup, fields: Kept, s: State, t: Thread, choice: Choice)
    requires Good(setup, fields, s) && s.At(t).Caching?
    ensures Good(setup, fields, StepOf(setup, s, t, choice))
  {
    var Caching(seen, reply) := s.At(t);
    var expiresAt := s.clock + Lifetime(setup, seen, reply);
    CachingStep(setup, s, t, choice, expiresAt);
    CachedIsGood(setup, fields, s, t, seen, reply, expiresAt);
  }

  lemma StoredIsGood(setup: Setup, fields: Kept, s: State, t: Thread, seen: Secrets, reply: Reply, stored: State)
    requires Good(setup, fields, s) && s.At(t) == Storing(seen, reply)
    requires stored == s.(secrets := s.secrets.(refresh := Some(reply.rotated)))
    ensures Good(setup, fields, stored)
    ensures Usable(setup, TokenOf(setup, seen, reply)) ==> Good(setup, fields, stored.To(t, Caching(seen, reply)))
  {
    assert PcOk(setup, fields, s.log, s.clock, t, s.At(t));
    SilentMove(setup, fields, s, t, stored);
    if Usable(setup, TokenOf(setup, seen, reply)) {
      SilentMove(setup, fields, stored, t, stored.To(t, Caching(seen, reply)));
    }
  }

  lemma StoringIsGood(setup: Setup, fields: Kept, s: State, t: Thread, seen: Secrets, reply: Reply, choice: Choice)
    requires Good(setup, fields, s) && s.At(t) == Storing(seen, reply)
    ensures Good(setup, fields, Store(setup, s, t, seen, reply, choice))
  {
    OwnTokenIsOk(setup, fields, s, t);
    assert PcOk(setup, fields, s.log, s.clock, t, s.At(t));
    var token := TokenOf(setup, seen, reply);
    var stored := s.(secrets := s.secrets.(refresh := Some(reply.rotated)));
    StoredIsGood(setup, fields, s, t, seen, reply, stored);
    if choice.Break? {
      GivingIsGood(setup, fields, s, t, reply, Failed);
    } else if !setup.path.Generic? {
      GivingIsGood(setup, fields, stored, t, reply, Got(token, FromReply));
    } else if !Usable(setup, token) {
      GivingIsGood(setup, fields, stored, t, reply, Failed);
    }
  }

  lemma LeavingIsGood(setup: Setup, fields: Kept, s: State, t: Thread, choice: Choice)
    requires Good(setup, fields, s) && s.At(t).Leaving?
    ensures Good(setup, fields, StepOf(setup, s, t, choice))
  {
    LeavingStep(setup, s, t, choice);
    if setup.path.Locks() && s.lock != Some(t) {
      ReturningIsGood(setup, fields, s, t, s.At(t).outcome);
    } else {
      var released := Released(t, s.secrets.refresh, Presents(setup, s.secrets), s.current);
      ReleasingIsGood(setup, fields, s, t, released);
      ReturningIsGood(setup, fields, s.(lock := None).Log([released]), t, s.At(t).outcome);
    }
  }

  lemma ReleasingIsGood(setup: Setup, fields: Kept, s: State, t: Thread, released: Event)
    requires Good(setup, fields, s) && released.Released?
    ensures Good(setup, fields, s.(lock := None).Log([released]))
  {
    PcStays(setup, fields, s.log, released, s.clock, s.clock, t, s.At(t));
    LoudMove(setup, fields, s, t, s.(lock := None).Log([released]), released);
  }

  lemma ReturningIsGood(setup: Setup, fields: Kept, s: State, t: Thread, outcome: Outcome)
    requires Good(setup, fields, s) && s.At(t) == Leaving(outcome)
    ensures Good(setup, fields, s.To(t, Idle).Log([Returned(t, s.clock, outcome)]))
  {
    var returned := Returned(t, s.clock, outcome);
    assert PcOk(setup, fields, s.log, s.clock, t, s.At(t));
    LogGrows(setup, fields, s.log, returned);
    HeldAfter(s.log, returned);
    MoveKeepsGood(setup, fields, s, t, s.To(t, Idle).Log([returned]), [returned]);
  }

  lemma NextKeepsGood(setup: Setup, fields: Kept, s: State, action: Action)
    requires Good(setup, fields, s)
    ensures Good(setup, fields, Next(setup, s, action))
  {
    match action
    case Tick(delay) =>
      var s' := Next(setup, s, action);
      forall t: Thread ensures PcOk(setup, fields, s'.log, s'.clock, t, s'.At(t)) {
        assert PcOk(setup, fields, s.log, s.clock, t, s.At(t));
        LaterIsOk(setup, fields, s.log, s.clock, s'.clock, t, s.At(t));
      }
    case Move(t, choice) =>
      match s.At(t) {
        case Idle => IdleIsGood(setup, fields, s, t, choice);
        case CachingStored(_) => CachingStoredIsGood(setup, fields, s, t, choice);
        case Requesting(seen, refresh) => AskingIsGood(setup, fields, s, t, seen, refresh, choice);
        case Receiving(_, _) => ReceivingIsGood(setup, fields, s, t, choice);
        case Caching(_, _) => CachingIsGood(setup, fields, s, t, choice);
        case Storing(seen, reply) => StoringIsGood(setup, fields, s, t, seen, reply, choice);
        case Leaving(_) => LeavingIsGood(setup, fields, s, t, choice);
        case _ => ReadingIsGood(setup, fields, s, t, choice);
      }
  }

  lemma LaterIsOk(setup: Setup, fields: Kept, log: seq<Event>, now: int, later: int, t: Thread, pc: Pc)
    requires PcOk(setup, fields, log, now, t, pc) && now <= later
    ensures PcOk(setup, fields, log, later, t, pc)
  {
    if pc.Leaving? && pc.outcome.Got? && pc.outcome.how.FromCache? {
      var c := LastCall(log, t);
      var j :| c < j < |log| && HitAt(log, j, t, pc.outcome.token, log[c].at, now);
      assert HitAt(log, j, t, pc.outcome.token, log[c].at, later);
    }
  }

  lemma {:induction false} RunsAreGood(setup: Setup, s: State, actions: seq<Action>)
    requires Initial(setup, s)
    ensures Good(setup, Fields(setup, s.secrets), Exec(setup, s, actions))
  {
    if actions == [] {
      assert forall t: Thread :: s.At(t).Idle?;
    } else {
      var n := |actions| - 1;
      RunsAreGood(setup, s, actions[..n]);
      NextKeepsGood(setup, Fields(setup, s.secrets), Exec(setup, s, actions[..n]), actions[n]);
    }
  }

  // ---------- What is returned ----------

  /** In every run, the stored fields and the configured ones stay what they were. */
  lemma FieldsNeverChange(setup: Setup, s: State, actions: seq<Action>)
    requires Initial(setup, s)
    ensures Fields(setup, Exec(setup, s, actions).secrets) == Fields(setup, s.secrets)
  {
    RunsAreGood(setup, s, actions);
  }

  /**
   In every interleaving on every path, a returned token belongs to the call that returns it. The
   call is the thread's last one, and it has not returned before. A cached token is what the cache
   held, with more than thirty seconds left, at a look this call made between its start and its
   return; a fresh one is, field by field, out of an answer that the endpoint gave to this call;
   and any other than a cached one this call has put in the cache.
   */
  lemma ReturnedTokens(setup: Setup, s: State, actions: seq<Action>, i: nat)
    requires Initial(setup, s)
    requires i < |Exec(setup, s, actions).log| && Exec(setup, s, actions).log[i].Returned?
    ensures
      var before := Exec(setup, s, actions).log[..i];
      var Returned(t, at, outcome) := Exec(setup, s, actions).log[i];
      var c := LastCall(before, t);
      && c < i && Calls(before[c], t) && before[c].at <= at
      && (forall j :: c < j < i ==> !Calls(before[j], t) && !Returns(before[j], t))
      && match outcome
         case Failed => true
         case Got(token, FromCache) => exists j :: c < j < i && HitAt(before, j, t, token, before[c].at, at)
         case Got(token, FromSecrets) =>
           IsKept(Fields(setup, s.secrets), token) && token.access != "" && CachedSince(before, c, t, token)
         case Got(token, FromReply) =>
           FromOwnAnswer(setup, Fields(setup, s.secrets), before, c, t, token) && CachedSince(before, c, t, token)
  {
    RunsAreGood(setup, s, actions);
    var log := Exec(setup, s, actions).log;
    assert EventOk(setup, Fields(setup, s.secrets), log[..i], log[i]);
  }

  /** And what a call caches is the stored token or, field by field and for as long as it says, its answer's. */
  lemma CachedTokens(setup: Setup, s: State, actions: seq<Action>, i: nat)
    requires Initial(setup, s)
    requires i < |Exec(setup, s, actions).log| && Exec(setup, s, actions).log[i].Cached?
    ensures
      var before := Exec(setup, s, actions).log[..i];
      var Cached(t, token, expiresAt, at) := Exec(setup, s, actions).log[i];
      var (c, fields) := (LastCall(before, t), Fields(setup, s.secrets));
      && c < i && Calls(before[c], t) && before[c].at <= at
      && (|| (IsKept(fields, token) && token.access != "" && expiresAt - at == 10 * 365 * 24 * 3600)
          || CachedFromOwnAnswer(setup, fields, before, c, t, token, expiresAt - at))
  {
    RunsAreGood(setup, s, actions);
    var log := Exec(setup, s, actions).log;
    assert EventOk(setup, Fields(setup, s.secrets), log[..i], log[i]);
  }
}
