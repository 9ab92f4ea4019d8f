/**
 Notion refreshes that overlap. The path takes no lock, so a request may present a token that
 another call has replaced; for an endpoint that never issues a token twice, this says exactly when.
 */
module TokenRefreshOverlap {
  import opened Wrappers
  import opened TokenRefresh

  /** The thread has an answer in hand that replaces the refresh token. */
  predicate Holds(pc: Pc) {
    Pending(pc) && pc.reply.rotated != ""
  }

  ghost predicate ReplacementHeld(s: State) {
    exists u: Thread :: Holds(s.At(u))
  }

  /** The step gets an answer that replaces the endpoint's refresh token. */
  predicate Replaces(s: State, action: Action) {
    && action.Move? && action.choice.Answer? && s.At(action.t).Requesting?
    && s.At(action.t).refresh == s.current && action.choice.reply.rotated != ""
  }

  ghost predicate WasIssued(first: string, log: seq<Event>, token: string) {
    token == first || exists e :: e in log && e.Answered? && e.reply.rotated == token && token != ""
  }

  ghost predicate IsNew(first: string, s: State, action: Action) {
    Replaces(s, action) ==> !WasIssued(first, s.log, action.choice.reply.rotated)
  }

  /** In this run the endpoint issues no refresh token twice. */
  ghost predicate NeverReissues(setup: Setup, s: State, actions: seq<Action>) {
    forall i :: 0 <= i < |actions| ==> IsNew(s.current, Exec(setup, s, actions[..i]), actions[i])
  }

  // ---------- What every interleaving keeps ----------

  ghost predicate Behind(s: State) {
    Lost in s.log || ReplacementHeld(s)
  }

  /** All that a thread or the store may present was issued, and is out of date while a replacement is held or lost. */
  ghost predicate Presentable(first: string, s: State, token: string) {
    WasIssued(first, s.log, token) && (Behind(s) ==> token != s.current)
  }

  ghost predicate PcOk(first: string, s: State, pc: Pc) {
    && (pc.Requesting? ==> Presentable(first, s, pc.refresh))
    && (pc.Storing? ==> pc.reply.rotated != "")
    && (Holds(pc) ==> pc.reply.rotated == s.current && Lost !in s.log)
  }

  ghost predicate OneHolds(s: State) {
    forall t: Thread, u: Thread :: Holds(s.At(t)) && Holds(s.At(u)) ==> t == u
  }

  ghost predicate Good(setup: Setup, first: string, s: State) {
    && WasIssued(first, s.log, s.current) && Presentable(first, s, Presents(setup, s.secrets))
    && (!Behind(s) ==> Presents(setup, s.secrets) == s.current)
    && (forall t: Thread :: PcOk(first, s, s.At(t)))
    && OneHolds(s)
  }

  // ---------- Steps ----------

  lemma IssuedStays(first: string, log: seq<Event>, more: seq<Event>, token: string)
    requires WasIssued(first, log, token)
    ensures WasIssued(first, log + more, token)
  {
    if token != first {
      var e :| e in log && e.Answered? && e.reply.rotated == token && token != "";
      assert e in log + more;
    }
  }

  /** A step that neither loses, stores nor replaces a token, and leaves the thread without one it had not. */
  lemma PlainStepKeepsGood(setup: Setup, first: string, s: State, t: Thread, s': State, more: seq<Event>)
    requires Good(setup, first, s) && s'.log == s.log + more && Lost !in more
    requires s'.current == s.current && s'.secrets == s.secrets
    requires s'.pcs == s.pcs || s'.pcs == s.pcs[t := s'.At(t)]
    requires Holds(s'.At(t)) <==> Holds(s.At(t))
    requires Holds(s.At(t)) ==> s'.At(t).reply == s.At(t).reply
    requires s'.At(t).Requesting? ==> s.At(t) == s'.At(t) || s'.At(t).refresh == Presents(setup, s.secrets)
    requires s'.At(t).Storing? ==> s'.At(t).reply.rotated != ""
    ensures Good(setup, first, s')
  {
    SameHolders(s, t, s');
    assert Lost in s'.log <==> Lost in s.log;
    assert Behind(s') <==> Behind(s);
    IssuedStays(first, s.log, more, s.current);
    IssuedStays(first, s.log, more, Presents(setup, s.secrets));
    forall u: Thread ensures PcOk(first, s', s'.At(u)) {
      assert PcOk(first, s, s.At(u));
      assert u != t ==> s'.At(u) == s.At(u);
      if s'.At(u).Requesting? {
        IssuedStays(first, s.log, more, s'.At(u).refresh);
      }
    }
  }

  lemma SameHolders(s: State, t: Thread, s': State)
    requires s'.pcs == s.pcs || s'.pcs == s.pcs[t := s'.At(t)]
    requires Holds(s'.At(t)) <==> Holds(s.At(t))
    ensures forall u: Thread :: Holds(s'.At(u)) <==> Holds(s.At(u))
    ensures ReplacementHeld(s') <==> ReplacementHeld(s)
    ensures OneHolds(s) ==> OneHolds(s')
  {
    forall u: Thread ensures Holds(s'.At(u)) <==> Holds(s.At(u)) {
      assert u != t ==> s'.At(u) == s.At(u);
    }
    if ReplacementHeld(s) {
      var u: Thread :| Holds(s.At(u));
      assert Holds(s'.At(u));
    }
  }

  /** An answer that replaces the token puts everybody else behind. */
  lemma ReplacingKeepsGood(setup: Setup, first: string, s: State, t: Thread, s': State, asked: Event, reply: Reply)
    requires Good(setup, first, s) && s.At(t).Requesting? && s.At(t).refresh == s.current && reply.rotated != ""
    requires !WasIssued(first, s.log, reply.rotated) && asked.Asked?
    requires s' == s.(current := reply.rotated).Log([asked])
                    .To(t, Receiving(s.At(t).seen, reply)).Log([Answered(t, reply)])
    ensures Good(setup, first, s')
  {
    var more := [asked, Answered(t, reply)];
    assert s'.log == s.log + more;
    assert PcOk(first, s, s.At(t));
    NobodyHolds(setup, first, s, t);
    assert Holds(s'.At(t));
    forall u: Thread | u != t ensures !Holds(s'.At(u)) {
      assert s'.At(u) == s.At(u);
    }
    assert s'.log[|s.log| + 1] == Answered(t, reply);
    IssuedStays(first, s.log, more, Presents(setup, s.secrets));
    forall u: Thread ensures PcOk(first, s', s'.At(u)) {
      assert PcOk(first, s, s.At(u));
      assert u != t ==> s'.At(u) == s.At(u);
      if s'.At(u).Requesting? {
        IssuedStays(first, s.log, more, s'.At(u).refresh);
      }
    }
  }

  lemma NobodyHolds(setup: Setup, first: string, s: State, t: Thread)
    requires Good(setup, first, s) && s.At(t).Requesting? && s.At(t).refresh == s.current
    ensures Lost !in s.log && forall u: Thread :: !Holds(s.At(u))
  {
    assert PcOk(first, s, s.At(t));
  }

  /** The holder stores its replacement, or loses it: then nobody holds one. */
  lemma SettlingKeepsGood(setup: Setup, first: string, s: State, t: Thread, s': State, stores: bool)
    requires Good(setup, first, s) && setup.path.Notion? && Holds(s.At(t)) && s'.current == s.current
    requires s'.pcs == s.pcs[t := s'.At(t)] && s'.At(t).Leaving?
    requires if stores then s'.log == s.log && s'.secrets == s.secrets.(refresh := Some(s.At(t).reply.rotated))
             else s'.log == s.log + [Lost] && s'.secrets == s.secrets
    ensures Good(setup, first, s')
  {
    assert PcOk(first, s, s.At(t));
    forall u: Thread ensures !Holds(s'.At(u)) {
      assert u != t ==> s'.At(u) == s.At(u);
    }
    assert !stores ==> s'.log[|s.log|] == Lost;
    assert Behind(s) && (Behind(s') <==> !stores);
    var more := if stores then [] else [Lost];
    assert s'.log == s.log + more;
    IssuedStays(first, s.log, more, s.current);
    IssuedStays(first, s.log, more, Presents(setup, s.secrets));
    forall u: Thread ensures PcOk(first, s', s'.At(u)) {
      assert PcOk(first, s, s.At(u));
      assert u != t ==> s'.At(u) == s.At(u);
      if s'.At(u).Requesting? {
        IssuedStays(first, s.log, more, s'.At(u).refresh);
      }
    }
  }

  /** The end of dealing with a reply that is not stored. */
  lemma GivingKeepsGood(setup: Setup, first: string, s: State, s1: State, t: Thread, outcome: Outcome, more: seq<Event>)
    requires Good(setup, first, s) && setup.path.Notion? && Pending(s.At(t))
    requires s1 == s.(cache := s1.cache, log := s.log + more) && Lost !in more
    requires s.At(t).reply.rotated == "" || more == []
    ensures Good(setup, first, Give(setup, s1, t, s.At(t).reply, outcome))
  {
    var reply := s.At(t).reply;
    var s' := Give(setup, s1, t, reply, outcome);
    assert PcOk(first, s, s.At(t));
    if reply.rotated == "" {
      PlainStepKeepsGood(setup, first, s, t, s', more);
    } else {
      assert Holds(s.At(t));
      assert Presents(setup, s.secrets) != reply.rotated;
      assert s.log + [] == s.log;
      SettlingKeepsGood(setup, first, s, t, s', false);
    }
  }

  lemma AskingKeepsGood(setup: Setup, first: string, s: State, t: Thread, seen: Secrets, refresh: string,
                        choice: Choice)
    requires Good(setup, first, s) && s.At(t) == Requesting(seen, refresh) && IsNew(first, s, Move(t, choice))
    ensures Good(setup, first, Ask(setup, s, t, seen, refresh, choice))
  {
    var s' := Ask(setup, s, t, seen, refresh, choice);
    var asked := Asked(t, refresh, s.current, s.cache, s.clock);
    if Replaces(s, Move(t, choice)) {
      ReplacingKeepsGood(setup, first, s, t, s', asked, choice.reply);
    } else if choice.Answer? && refresh == s.current {
      assert s'.log == s.log + [asked, Answered(t, choice.reply)];
      PlainStepKeepsGood(setup, first, s, t, s', [asked, Answered(t, choice.reply)]);
    } else if choice.Answer? || choice.Refuse? {
      PlainStepKeepsGood(setup, first, s, t, s', [asked]);
    } else {
      assert s.log + [] == s.log;
      PlainStepKeepsGood(setup, first, s, t, s', []);
    }
  }

  lemma ReceivingKeepsGood(setup: Setup, first: string, s: State, t: Thread, choice: Choice)
    requires Good(setup, first, s) && setup.path.Notion? && s.At(t).Receiving?
    ensures Good(setup, first, StepOf(setup, s, t, choice))
  {
    var s' := StepOf(setup, s, t, choice);
    assert s.log + [] == s.log;
    if s' == Give(setup, s, t, s.At(t).reply, Failed) {
      GivingKeepsGood(setup, first, s, s, t, Failed, []);
    } else {
      PlainStepKeepsGood(setup, first, s, t, s', []);
    }
  }

  lemma CachingKeepsGood(setup: Setup, first: string, s: State, t: Thread, choice: Choice)
    requires Good(setup, first, s) && setup.path.Notion? && s.At(t).Caching?
    ensures Good(setup, first, StepOf(setup, s, t, choice))
  {
    var Caching(seen, reply) := s.At(t);
    var token, expiresAt := TokenOf(setup, seen, reply), s.clock + Lifetime(setup, seen, reply);
    if reply.rotated == "" {
      GivingKeepsGood(setup, first, s, PutCache(s, t, token, expiresAt), t, Got(token, FromReply),
                      [Cached(t, token, expiresAt, s.clock)]);
    } else {
      PlainStepKeepsGood(setup, first, s, t, StepOf(setup, s, t, choice), [Cached(t, token, expiresAt, s.clock)]);
    }
  }

  lemma StoringKeepsGood(setup: Setup, first: string, s: State, t: Thread, choice: Choice)
    requires Good(setup, first, s) && setup.path.Notion? && s.At(t).Storing?
    ensures Good(setup, first, StepOf(setup, s, t, choice))
  {
    assert PcOk(first, s, s.At(t));
    if choice.Break? {
      assert s.log + [] == s.log;
      GivingKeepsGood(setup, first, s, s, t, Failed, []);
    } else {
      SettlingKeepsGood(setup, first, s, t, StepOf(setup, s, t, choice), true);
    }
  }

  lemma LeavingKeepsGood(setup: Setup, first: string, s: State, t: Thread, choice: Choice)
    requires Good(setup, first, s) && setup.path.Notion? && s.At(t).Leaving?
    ensures Good(setup, first, StepOf(setup, s, t, choice))
  {
    var released := Released(t, s.secrets.refresh, Presents(setup, s.secrets), s.current);
    var returned := Returned(t, s.clock, s.At(t).outcome);
    assert StepOf(setup, s, t, choice).log == s.log + [released, returned];
    PlainStepKeepsGood(setup, first, s, t, StepOf(setup, s, t, choice), [released, returned]);
  }

  lemma EnteringKeepsGood(setup: Setup, first: string, s: State, t: Thread, choice: Choice)
    requires Good(setup, first, s) && setup.path.Notion? && s.At(t).Idle?
    ensures Good(setup, first, StepOf(setup, s, t, choice))
  {
    var called := Called(t, s.clock);
    var more := if Fresh(s.cache, s.clock) then [called, Hit(t, s.cache.value, s.clock)] else [called];
    assert StepOf(setup, s, t, choice).log == s.log + more;
    PlainStepKeepsGood(setup, first, s, t, StepOf(setup, s, t, choice), more);
  }

  /** The places before a request; the locked ones are never reached, and would do no harm. */
  lemma ReadingKeepsGood(setup: Setup, first: string, s: State, t: Thread, choice: Choice)
    requires Good(setup, first, s) && setup.path.Notion?
    requires || s.At(t).Waiting? || s.At(t).Rechecking? || s.At(t).ReadingFields? || s.At(t).ReadingRefresh?
             || s.At(t).CachingStored?
    ensures Good(setup, first, StepOf(setup, s, t, choice))
  {
    var s' := StepOf(setup, s, t, choice);
    var more := s'.log[|s.log|..];
    assert s'.log == s.log + more;
    PlainStepKeepsGood(setup, first, s, t, s', more);
  }

  lemma NextKeepsGood(setup: Setup, first: string, s: State, action: Action)
    requires Good(setup, first, s) && setup.path.Notion? && IsNew(first, s, action)
    ensures Good(setup, first, Next(setup, s, action))
  {
    match action
    case Tick(delay) =>
      var s' := Next(setup, s, action);
      assert s.log + [] == s.log;
      assert s'.At(0) == s.At(0);
      assert PcOk(first, s, s.At(0));
      PlainStepKeepsGood(setup, first, s, 0, s', []);
    case Move(t, choice) =>
      match s.At(t) {
        case Idle => EnteringKeepsGood(setup, first, s, t, choice);
        case Requesting(seen, refresh) => AskingKeepsGood(setup, first, s, t, seen, refresh, choice);
        case Receiving(_, _) => ReceivingKeepsGood(setup, first, s, t, choice);
        case Caching(_, _) => CachingKeepsGood(setup, first, s, t, choice);
        case Storing(_, _) => StoringKeepsGood(setup, first, s, t, choice);
        case Leaving(_) => LeavingKeepsGood(setup, first, s, t, choice);
        case _ => ReadingKeepsGood(setup, first, s, t, choice);
      }
  }

  lemma NeverReissuesPrefix(setup: Setup, s: State, actions: seq<Action>, n: nat)
    requires NeverReissues(setup, s, actions) && n <= |actions|
    ensures NeverReissues(setup, s, actions[..n])
  {
    forall i | 0 <= i < n ensures IsNew(s.current, Exec(setup, s, actions[..n][..i]), actions[..n][i]) {
      assert actions[..n][..i] == actions[..i];
    }
  }

  lemma {:induction false} RunsAreGood(setup: Setup, s: State, actions: seq<Action>)
    requires setup.path.Notion? && Initial(setup, s) && NeverReissues(setup, s, actions)
    ensures Good(setup, s.current, Exec(setup, s, actions))
  {
    if actions == [] {
      assert forall t: Thread :: s.At(t).Idle?;
    } else {
      var n := |actions| - 1;
      NeverReissuesPrefix(setup, s, actions, n);
      RunsAreGood(setup, s, actions[..n]);
      NextKeepsGood(setup, s.current, Exec(setup, s, actions[..n]), actions[n]);
    }
  }

  // ---------- Exactly when ----------

  /** In every interleaving, what the credential presents is current exactly when no replacement is held or was lost. */
  lemma StoreHoldsCurrentExactlyWhen(setup: Setup, s: State, actions: seq<Action>)
    requires setup.path.Notion? && Initial(setup, s) && NeverReissues(setup, s, actions)
    ensures var after := Exec(setup, s, actions);
            Presents(setup, after.secrets) == after.current <==> Lost !in after.log && !ReplacementHeld(after)
  {
    RunsAreGood(setup, s, actions);
  }

  /** The last step of a thread in a run; the run's length when it took none. */
  function LastMove(actions: seq<Action>, t: Thread): (j: nat)
    ensures j <= |actions|
    ensures j < |actions| ==> actions[j].Move? && actions[j].t == t
    ensures forall k :: j < k < |actions| ==> !(actions[k].Move? && actions[k].t == t)
  {
    if actions == [] then 0
    else
      var n := |actions| - 1;
      if actions[n].Move? && actions[n].t == t then n
      else
        var j := LastMove(actions[..n], t);
        assert forall k :: 0 <= k < n ==> actions[..n][k] == actions[k];
        if j == n then |actions| else j
  }

  lemma OthersLeaveIt(setup: Setup, s: State, action: Action, t: Thread)
    requires !(action.Move? && action.t == t)
    ensures Next(setup, s, action).At(t) == s.At(t)
  {
    if action.Move? {
      StepMoves(setup, s, action.t, action.choice);
    }
  }

  /** Only a read leads to a request. */
  lemma RequestsFollowReads(setup: Setup, s: State, t: Thread, choice: Choice)
    requires StepOf(setup, s, t, choice).At(t).Requesting?
    ensures s.At(t).ReadingRefresh? && StepOf(setup, s, t, choice).At(t).refresh == Presents(setup, s.secrets)
  {
  }

  /** A thread about to ask has read just before, and nothing of its own has happened since. */
  lemma {:induction false} LastMoveWasRead(setup: Setup, s: State, actions: seq<Action>, t: Thread)
    requires s.pcs == map[] && Exec(setup, s, actions).At(t).Requesting?
    ensures var j := LastMove(actions, t);
            && j < |actions| && Exec(setup, s, actions[..j]).At(t).ReadingRefresh?
            && Exec(setup, s, actions).At(t).refresh == Presents(setup, Exec(setup, s, actions[..j]).secrets)
  {
    if actions != [] {
      var n := |actions| - 1;
      var before := Exec(setup, s, actions[..n]);
      if actions[n].Move? && actions[n].t == t {
        RequestsFollowReads(setup, before, t, actions[n].choice);
      } else {
        OthersLeaveIt(setup, before, actions[n], t);
        LastMoveWasRead(setup, s, actions[..n], t);
        var j := LastMove(actions[..n], t);
        assert actions[..n][..j] == actions[..j];
      }
    }
  }

  lemma AskedCurrent(setup: Setup, s: State, t: Thread, seen: Secrets, refresh: string, choice: Choice)
    requires s.At(t) == Requesting(seen, refresh)
    ensures var s' := Ask(setup, s, t, seen, refresh, choice);
            && s'.current == (if Replaces(s, Move(t, choice)) then choice.reply.rotated else s.current)
            && s.log <= s'.log
  {
  }

  lemma StepCurrent(setup: Setup, s: State, t: Thread, choice: Choice)
    ensures var s' := StepOf(setup, s, t, choice);
            && s'.current == (if Replaces(s, Move(t, choice)) then choice.reply.rotated else s.current)
            && s.log <= s'.log
  {
    if s.At(t).Requesting? {
      AskedCurrent(setup, s, t, s.At(t).seen, s.At(t).refresh, choice);
    }
  }

  /** The endpoint's token changes by replacement only, and never back to one it has issued. */
  lemma CurrentMovesOn(setup: Setup, first: string, s: State, action: Action, token: string)
    requires WasIssued(first, s.log, token) && IsNew(first, s, action)
    ensures Next(setup, s, action).current == token <==> s.current == token && !Replaces(s, action)
    ensures WasIssued(first, Next(setup, s, action).log, token)
  {
    if action.Move? {
      StepCurrent(setup, s, action.t, action.choice);
      var after := Next(setup, s, action).log;
      assert after == s.log + after[|s.log|..];
      IssuedStays(first, s.log, after[|s.log|..], token);
    }
  }

  /** The state in which step `i` of the run is taken. */
  function StateAt(setup: Setup, s: State, actions: seq<Action>, i: nat): State
    requires i <= |actions|
  {
    Exec(setup, s, actions[..i])
  }

  lemma NextState(setup: Setup, s: State, actions: seq<Action>, i: nat, next: nat)
    requires i < |actions| && next == i + 1
    ensures StateAt(setup, s, actions, next) == Next(setup, StateAt(setup, s, actions, i), actions[i])
  {
    assert actions[..next][..i] == actions[..i];
  }

  predicate ReplacesAt(setup: Setup, s: State, actions: seq<Action>, i: nat)
    requires i < |actions|
  {
    Replaces(StateAt(setup, s, actions, i), actions[i])
  }

  ghost predicate ReplacedBetween(setup: Setup, s: State, actions: seq<Action>, j: nat, m: nat)
    requires m <= |actions|
  {
    exists k :: j <= k < m && ReplacesAt(setup, s, actions, k)
  }

  lemma ReplacedOneMore(setup: Setup, s: State, actions: seq<Action>, j: nat, m: nat, next: nat)
    requires j <= m < |actions| && next == m + 1
    ensures ReplacedBetween(setup, s, actions, j, next) <==>
              ReplacedBetween(setup, s, actions, j, m) || ReplacesAt(setup, s, actions, m)
  {
  }

  lemma {:induction false} CurrentSince(setup: Setup, s: State, actions: seq<Action>, j: nat, m: nat, token: string)
    requires j <= m <= |actions| && NeverReissues(setup, s, actions)
    requires WasIssued(s.current, StateAt(setup, s, actions, j).log, token)
    ensures WasIssued(s.current, StateAt(setup, s, actions, m).log, token)
    ensures StateAt(setup, s, actions, m).current == token <==>
              StateAt(setup, s, actions, j).current == token && !ReplacedBetween(setup, s, actions, j, m)
    decreases m
  {
    if j < m {
      var n: nat := m - 1;
      CurrentSince(setup, s, actions, j, n, token);
      NextState(setup, s, actions, n, m);
      CurrentMovesOn(setup, s.current, StateAt(setup, s, actions, n), actions[n], token);
      ReplacedOneMore(setup, s, actions, j, n, m);
    }
  }

  /** What a thread about to ask presents is what it read, in the state of its last move. */
  lemma AskingAfterRead(setup: Setup, s: State, actions: seq<Action>, m: nat, t: Thread)
    requires s.pcs == map[] && m <= |actions| && StateAt(setup, s, actions, m).At(t).Requesting?
    ensures var j := LastMove(actions[..m], t);
            && j < m && StateAt(setup, s, actions, j).At(t).ReadingRefresh? && !ReplacesAt(setup, s, actions, j)
            && StateAt(setup, s, actions, m).At(t).refresh == Presents(setup, StateAt(setup, s, actions, j).secrets)
  {
    LastMoveWasRead(setup, s, actions[..m], t);
    var j := LastMove(actions[..m], t);
    assert actions[..m][..j] == actions[..j] && actions[..m][j] == actions[j];
  }

  lemma PrefixIsGood(setup: Setup, s: State, actions: seq<Action>, j: nat)
    requires setup.path.Notion? && Initial(setup, s) && NeverReissues(setup, s, actions) && j <= |actions|
    ensures var now := StateAt(setup, s, actions, j);
            && WasIssued(s.current, now.log, Presents(setup, now.secrets))
            && (Presents(setup, now.secrets) == now.current <==> Lost !in now.log && !ReplacementHeld(now))
  {
    NeverReissuesPrefix(setup, s, actions, j);
    RunsAreGood(setup, s, actions[..j]);
  }

  /**
   In every interleaving of Notion refreshes against an endpoint that never reissues a token: a
   request presents the current token exactly when, at the moment its call read the refresh token,
   no replacement had been lost and no thread held one that was not stored yet, and between that
   read and the request no other call has got an answer that replaces the token.
   */
  lemma PresentsCurrentExactlyWhen(setup: Setup, s: State, actions: seq<Action>, m: nat)
    requires setup.path.Notion? && Initial(setup, s) && NeverReissues(setup, s, actions)
    requires m < |actions| && actions[m].Move? && StateAt(setup, s, actions, m).At(actions[m].t).Requesting?
    ensures
      var t := actions[m].t;
      var j := LastMove(actions[..m], t);
      var asking := StateAt(setup, s, actions, m);
      && j < m && StateAt(setup, s, actions, j).At(t).ReadingRefresh?
      && (asking.At(t).refresh == asking.current <==>
            && Lost !in StateAt(setup, s, actions, j).log
            && !ReplacementHeld(StateAt(setup, s, actions, j))
            && !ReplacedBetween(setup, s, actions, j + 1, m))
  {
    var t := actions[m].t;
    var j := LastMove(actions[..m], t);
    AskingAfterRead(setup, s, actions, m, t);
    PrefixIsGood(setup, s, actions, j);
    CurrentSince(setup, s, actions, j, m, StateAt(setup, s, actions, m).At(t).refresh);
    assert ReplacedBetween(setup, s, actions, j, m) <==> ReplacedBetween(setup, s, actions, j + 1, m);
  }
}
