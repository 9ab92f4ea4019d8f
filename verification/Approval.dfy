/**
 Requests that wait for an approval: each has a one-slot channel, resolvers look the request up and
 then send on its channel, and the waiting call takes the first value, or gives up. A run is any
 sequence of single steps of any waiting and resolving calls.
 */
module Approval {
  import opened Wrappers

  type Id = string
  type Caller = nat

  /** The three statuses the service knows; a resolver may name any other text. */
  datatype Status = Pending | Approved | Denied | Unknown(text: string)
  datatype Failure = TimedOut | Cancelled

  /** A value on a channel. The code sends the status alone; who sent it is kept here to speak of it. */
  datatype Vote = Vote(caller: Caller, status: Status)

  /** How a wait ends: with the value it took, or with a failure. */
  datatype Outcome = Took(vote: Vote) | GaveUp(failure: Failure)
  {
    function Status(): Status {
      if Took? then vote.status else Denied
    }
  }

  datatype Request = Request(
    id: Id, verb: string, url: string, rule: string, note: string, status: Status, createdAt: int)

  datatype WaitPc =
    | Inserting(request: Request)
    | Selecting
    | Deleting(outcome: Outcome)
    | Leaving(outcome: Outcome)
    | Gone

  datatype ResolvePc = Looking(id: Id, status: Status) | Sending(id: Id, status: Status) | Finished

  datatype Event =
    | Inserted(id: Id)
    | Deleted(id: Id)
    | Looked(caller: Caller, id: Id, status: Status, found: bool)
    | Sent(id: Id, vote: Vote)
    | Resolved(caller: Caller, id: Id, status: Status, ok: bool)
    | Returned(id: Id, outcome: Outcome)
    | Listed(items: map<Id, Request>)

  /** `slots` holds the channel of every request there ever was: nothing, or one unread value. */
  datatype State = State(
    pending: map<Id, Request>, slots: map<Id, Option<Vote>>, waits: map<Id, WaitPc>,
    resolves: map<Caller, ResolvePc>, log: seq<Event>)
  {
    function Log(e: Event): State {
      this.(log := log + [e])
    }

    function Wait(id: Id, pc: WaitPc): State {
      this.(waits := waits[id := pc])
    }

    function Resolve(caller: Caller, pc: ResolvePc): State {
      this.(resolves := resolves[caller := pc])
    }
  }

  datatype Action =
    /** A call of Wait draws an identifier that no request has had. */
    | Begin(id: Id, verb: string, url: string, rule: string, note: string, now: int)
    | Insert(id: Id)
    | Receive(id: Id)
    | GiveUp(id: Id, failure: Failure)
    | Delete(id: Id)
    | Return(id: Id)
    | CallResolve(caller: Caller, id: Id, status: Status)
    | Look(caller: Caller)
    | Send(caller: Caller)
    | List

  const Empty := State(map[], map[], map[], map[], [])

  /** One step; an action that is not possible, such as sending on a full channel, changes nothing. */
  function Next(s: State, action: Action): State {
    match action
    case Begin(id, verb, url, rule, note, now) =>
      if id in s.waits then s
      else s.(slots := s.slots[id := None]).Wait(id, Inserting(Request(id, verb, url, rule, note, Pending, now)))
    case Insert(id) =>
      if id in s.waits && s.waits[id].Inserting?
      then s.(pending := s.pending[id := s.waits[id].request]).Wait(id, Selecting).Log(Inserted(id))
      else s
    case Receive(id) =>
      if id in s.waits && s.waits[id].Selecting? && id in s.slots && s.slots[id].Some?
      then s.(slots := s.slots[id := None]).Wait(id, Deleting(Took(s.slots[id].value)))
      else s
    case GiveUp(id, failure) =>
      if id in s.waits && s.waits[id].Selecting? then s.Wait(id, Deleting(GaveUp(failure))) else s
    case Delete(id) =>
      if id in s.waits && s.waits[id].Deleting?
      then s.(pending := s.pending - {id}).Wait(id, Leaving(s.waits[id].outcome)).Log(Deleted(id))
      else s
    case Return(id) =>
      if id in s.waits && s.waits[id].Leaving?
      then s.Wait(id, Gone).Log(Returned(id, s.waits[id].outcome))
      else s
    case CallResolve(caller, id, status) =>
      if caller in s.resolves then s
      else if status != Approved && status != Denied then
        s.Resolve(caller, Finished).Log(Resolved(caller, id, status, false))
      else s.Resolve(caller, Looking(id, status))
    case Look(caller) =>
      if caller in s.resolves && s.resolves[caller].Looking?
      then
        var Looking(id, status) := s.resolves[caller];
        if id in s.pending then s.Resolve(caller, Sending(id, status)).Log(Looked(caller, id, status, true))
        else s.Resolve(caller, Finished).Log(Looked(caller, id, status, false)).Log(Resolved(caller, id, status, false))
      else s
    case Send(caller) =>
      if caller in s.resolves && s.resolves[caller].Sending?
      then
        var Sending(id, status) := s.resolves[caller];
        if id in s.slots && s.slots[id].None?
        then s.(slots := s.slots[id := Some(Vote(caller, status))]).Resolve(caller, Finished)
              .Log(Sent(id, Vote(caller, status))).Log(Resolved(caller, id, status, true))
        else s
      else s
    case List => s.Log(Listed(s.pending))
  }

  function Exec(actions: seq<Action>): State {
    if actions == [] then Empty else Next(Exec(actions[..|actions| - 1]), actions[|actions| - 1])
  }

  // ---------- What a log says ----------

  /** The first value sent on a request's channel. */
  function FirstSent(log: seq<Event>, id: Id): Option<Vote> {
    if log == [] then None
    else match FirstSent(log[..|log| - 1], id)
      case Some(vote) => Some(vote)
      case None =>
        var last := log[|log| - 1];
        if last.Sent? && last.id == id then Some(last.vote) else None
  }

  datatype Facts = Facts(inserted: bool, deleted: bool, sent: Option<Vote>)

  function Said(log: seq<Event>, id: Id): Facts {
    Facts(Inserted(id) in log, Deleted(id) in log, FirstSent(log, id))
  }

  function Hear(f: Facts, e: Event, id: Id): Facts {
    if e == Inserted(id) then f.(inserted := true)
    else if e == Deleted(id) then f.(deleted := true)
    else if e.Sent? && e.id == id && f.sent.None? then f.(sent := Some(e.vote))
    else f
  }

  lemma SaidAfter(log: seq<Event>, e: Event, id: Id)
    ensures Said(log + [e], id) == Hear(Said(log, id), e, id)
  {
    assert (log + [e])[..|log|] == log;
    assert (log + [e])[|log|] == e;
    assert Inserted(id) in log + [e] <==> Inserted(id) in log || e == Inserted(id);
    assert Deleted(id) in log + [e] <==> Deleted(id) in log || e == Deleted(id);
  }

  ghost predicate HasLooked(log: seq<Event>, caller: Caller) {
    exists i :: 0 <= i < |log| && log[i].Looked? && log[i].caller == caller
  }

  lemma HasLookedAfter(log: seq<Event>, e: Event, caller: Caller)
    ensures HasLooked(log + [e], caller) <==> HasLooked(log, caller) || (e.Looked? && e.caller == caller)
  {
    var after := log + [e];
    assert forall i :: 0 <= i < |log| ==> after[i] == log[i];
    assert after[|log|] == e;
    if HasLooked(log, caller) {
      var i :| 0 <= i < |log| && log[i].Looked? && log[i].caller == caller;
      assert after[i].Looked?;
    }
  }

  // ---------- What every run keeps ----------

  ghost predicate EventOk(before: seq<Event>, e: Event) {
    match e
    case Looked(caller, id, _, found) =>
      && (found <==> Inserted(id) in before && Deleted(id) !in before)
      && !HasLooked(before, caller)
    case Sent(id, vote) =>
      && (vote.status == Approved || vote.status == Denied)
      && Looked(vote.caller, id, vote.status, true) in before
    case Resolved(caller, id, status, ok) =>
      if ok then Looked(caller, id, status, true) in before && Sent(id, Vote(caller, status)) in before
      else (status != Approved && status != Denied) || Looked(caller, id, status, false) in before
    case Returned(id, outcome) => Deleted(id) in before && OutcomeOk(outcome, FirstSent(before, id))
    case Listed(items) =>
      && (forall id :: id in items <==> Inserted(id) in before && Deleted(id) !in before)
      && (forall id :: id in items ==> items[id].id == id && items[id].status == Pending)
    case _ => true
  }

  ghost predicate LogOk(log: seq<Event>) {
    forall i :: 0 <= i < |log| ==> EventOk(log[..i], log[i])
  }

  lemma LogGrows(log: seq<Event>, e: Event)
    requires LogOk(log) && EventOk(log, e)
    ensures LogOk(log + [e])
  {
    forall i | 0 <= i < |log + [e]| ensures EventOk((log + [e])[..i], (log + [e])[i]) {
      assert (log + [e])[..i] == log[..i];
      assert i == |log| ==> log[..i] == log;
    }
  }

  /** All there is about one request: its call of Wait, its channel, its entry, and what the log says of it. */
  datatype Room = Room(pc: Option<WaitPc>, slot: Option<Option<Vote>>, entry: Option<Request>, said: Facts)

  function At<V>(m: map<Id, V>, id: Id): Option<V> {
    if id in m then Some(m[id]) else None
  }

  function RoomOf(s: State, id: Id): Room {
    Room(At(s.waits, id), At(s.slots, id), At(s.pending, id), Said(s.log, id))
  }

  predicate OutcomeOk(outcome: Outcome, sent: Option<Vote>) {
    outcome.Took? ==> sent == Some(outcome.vote)
  }

  /** Until the wait takes a value, the channel holds exactly the first vote sent on it. */
  predicate RoomOk(r: Room, id: Id) {
    match r.pc
    case None => r == Room(None, None, None, Facts(false, false, None))
    case Some(Inserting(q)) =>
      q.id == id && q.status == Pending && r == Room(r.pc, Some(None), None, Facts(false, false, None))
    case Some(Selecting) => EntryOk(r, id) && r.slot == Some(r.said.sent)
    case Some(Deleting(outcome)) => EntryOk(r, id) && OutcomeOk(outcome, r.said.sent)
    case Some(Leaving(outcome)) => LeftOk(r) && OutcomeOk(outcome, r.said.sent)
    case Some(Gone) => LeftOk(r)
  }

  predicate EntryOk(r: Room, id: Id) {
    && r.said.inserted && !r.said.deleted && SlotOk(r)
    && r.entry.Some? && r.entry.value.id == id && r.entry.value.status == Pending
  }

  predicate LeftOk(r: Room) {
    r.said.inserted && r.said.deleted && SlotOk(r) && r.entry.None?
  }

  predicate SlotOk(r: Room) {
    r.slot.Some? && (r.slot.value.Some? ==> r.said.sent.Some?)
  }

  ghost predicate CallOk(pc: Option<ResolvePc>, caller: Caller, log: seq<Event>) {
    match pc
    case None => !HasLooked(log, caller)
    case Some(Looking(_, status)) => (status == Approved || status == Denied) && !HasLooked(log, caller)
    case Some(Sending(id, status)) =>
      (status == Approved || status == Denied) && Looked(caller, id, status, true) in log && Inserted(id) in log
    case Some(Finished) => true
  }

  function CallOf(s: State, caller: Caller): Option<ResolvePc> {
    if caller in s.resolves then Some(s.resolves[caller]) else None
  }

  ghost predicate Good(s: State) {
    && (forall id :: RoomOk(RoomOf(s, id), id))
    && (forall c :: CallOk(CallOf(s, c), c, s.log))
    && LogOk(s.log)
  }

  // ---------- One step ----------

  /** A move of one wait, without an event. */
  lemma QuietMoveKeepsGood(s: State, id: Id, t: State)
    requires Good(s) && t == s.(waits := t.waits, slots := t.slots)
    requires t.waits - {id} == s.waits - {id} && t.slots - {id} == s.slots - {id} && RoomOk(RoomOf(t, id), id)
    ensures Good(t)
  {
    forall q ensures RoomOk(RoomOf(t, q), q) {
      assert RoomOk(RoomOf(s, q), q);
      assert q != id ==> (q in t.waits - {id} <==> q in s.waits - {id});
      assert q != id ==> (q in t.slots - {id} <==> q in s.slots - {id});
      assert q != id ==> RoomOf(t, q) == RoomOf(s, q);
    }
    forall c ensures CallOk(CallOf(t, c), c, t.log) {
      assert CallOk(CallOf(s, c), c, s.log);
    }
  }

  /** One more event that says nothing of any request, and no look. */
  lemma CallsHear(s: State, e: Event)
    requires (forall c :: CallOk(CallOf(s, c), c, s.log)) && !e.Looked?
    ensures forall c :: CallOk(CallOf(s, c), c, s.log + [e])
  {
    forall c ensures CallOk(CallOf(s, c), c, s.log + [e]) {
      assert CallOk(CallOf(s, c), c, s.log);
      HasLookedAfter(s.log, e, c);
    }
  }

  /** A move that logs an event about request `id`. */
  lemma MoveKeepsGood(s: State, id: Id, t: State, e: Event)
    requires Good(s) && t == State(t.pending, t.slots, t.waits, s.resolves, s.log + [e])
    requires t.waits - {id} == s.waits - {id} && t.slots - {id} == s.slots - {id}
    requires t.pending - {id} == s.pending - {id}
    requires RoomOk(RoomOf(t, id), id) && EventOk(s.log, e) && !e.Looked?
    requires e.Inserted? || e.Deleted? || e.Sent? ==> e.id == id
    ensures Good(t)
  {
    forall q ensures RoomOk(RoomOf(t, q), q) {
      assert RoomOk(RoomOf(s, q), q);
      SaidAfter(s.log, e, q);
      assert q != id ==> (q in t.waits - {id} <==> q in s.waits - {id});
      assert q != id ==> (q in t.slots - {id} <==> q in s.slots - {id});
      assert q != id ==> (q in t.pending - {id} <==> q in s.pending - {id});
      assert q != id ==> RoomOf(t, q) == RoomOf(s, q);
    }
    CallsHear(s, e);
    forall c ensures CallOk(CallOf(t, c), c, t.log) {
      assert CallOk(CallOf(s, c), c, s.log + [e]);
    }
    LogGrows(s.log, e);
  }

  lemma BeginKeepsGood(s: State, action: Action)
    requires Good(s) && action.Begin?
    ensures Good(Next(s, action))
  {
    var id := action.id;
    assert RoomOk(RoomOf(s, id), id);
    if id !in s.waits {
      QuietMoveKeepsGood(s, id, Next(s, action));
    }
  }

  lemma InsertKeepsGood(s: State, id: Id)
    requires Good(s)
    ensures Good(Next(s, Insert(id)))
  {
    if id in s.waits && s.waits[id].Inserting? {
      var q, e := s.waits[id].request, Inserted(id);
      var t := State(s.pending[id := q], s.slots, s.waits[id := Selecting], s.resolves, s.log + [e]);
      InsertedRoom(s, id, t);
      assert t.pending - {id} == s.pending - {id} && t.waits - {id} == s.waits - {id};
      MoveKeepsGood(s, id, t, e);
    }
  }

  lemma InsertedRoom(s: State, id: Id, t: State)
    requires RoomOk(RoomOf(s, id), id) && id in s.waits && s.waits[id].Inserting?
    requires t == State(s.pending[id := s.waits[id].request], s.slots, s.waits[id := Selecting], s.resolves,
                        s.log + [Inserted(id)])
    ensures RoomOk(RoomOf(t, id), id)
  {
    SaidAfter(s.log, Inserted(id), id);
  }

  lemma SelectKeepsGood(s: State, action: Action)
    requires Good(s) && (action.Receive? || action.GiveUp?)
    ensures Good(Next(s, action))
  {
    var id := action.id;
    assert RoomOk(RoomOf(s, id), id);
    if Next(s, action) != s {
      QuietMoveKeepsGood(s, id, Next(s, action));
    }
  }

  lemma DeleteKeepsGood(s: State, id: Id)
    requires Good(s)
    ensures Good(Next(s, Delete(id)))
  {
    assert RoomOk(RoomOf(s, id), id);
    if id in s.waits && s.waits[id].Deleting? {
      SaidAfter(s.log, Deleted(id), id);
      MoveKeepsGood(s, id, Next(s, Delete(id)), Deleted(id));
    }
  }

  lemma ReturnKeepsGood(s: State, id: Id)
    requires Good(s)
    ensures Good(Next(s, Return(id)))
  {
    assert RoomOk(RoomOf(s, id), id);
    if id in s.waits && s.waits[id].Leaving? {
      var e := Returned(id, s.waits[id].outcome);
      SaidAfter(s.log, e, id);
      MoveKeepsGood(s, id, Next(s, Return(id)), e);
    }
  }

  /** An event that says nothing of any request. */
  lemma QuietEventKeepsGood(s: State, e: Event)
    requires Good(s) && EventOk(s.log, e) && !e.Inserted? && !e.Deleted? && !e.Sent? && !e.Looked?
    ensures Good(s.Log(e))
  {
    forall q ensures RoomOk(RoomOf(s.Log(e), q), q) {
      assert RoomOk(RoomOf(s, q), q);
      SaidAfter(s.log, e, q);
    }
    CallsHear(s, e);
    forall c ensures CallOk(CallOf(s.Log(e), c), c, s.log + [e]) {
      assert CallOk(CallOf(s, c), c, s.log + [e]);
    }
    LogGrows(s.log, e);
  }

  lemma ListedEntry(s: State, id: Id)
    requires Good(s)
    ensures id in s.pending <==> Inserted(id) in s.log && Deleted(id) !in s.log
    ensures id in s.pending ==> s.pending[id].id == id && s.pending[id].status == Pending
  {
    assert RoomOk(RoomOf(s, id), id);
  }

  lemma ListKeepsGood(s: State)
    requires Good(s)
    ensures Good(Next(s, List))
  {
    assert EventOk(s.log, Listed(s.pending)) by {
      forall id
        ensures id in s.pending <==> Inserted(id) in s.log && Deleted(id) !in s.log
        ensures id in s.pending ==> s.pending[id].id == id && s.pending[id].status == Pending
      {
        ListedEntry(s, id);
      }
    }
    QuietEventKeepsGood(s, Listed(s.pending));
  }

  lemma CallMoveKeepsGood(s: State, caller: Caller, pc: ResolvePc)
    requires Good(s) && CallOk(Some(pc), caller, s.log)
    ensures Good(s.Resolve(caller, pc))
  {
    var t := s.Resolve(caller, pc);
    forall c ensures CallOk(CallOf(t, c), c, t.log) {
      assert CallOk(CallOf(s, c), c, s.log);
    }
    forall q ensures RoomOk(RoomOf(t, q), q) {
      assert RoomOk(RoomOf(s, q), q);
    }
  }

  /** The look and the move of the call that makes it. */
  lemma LookKeepsGood(s: State, caller: Caller, id: Id, status: Status, found: bool, pc: ResolvePc)
    requires Good(s) && !HasLooked(s.log, caller) && (found <==> id in s.pending)
    requires pc == Finished || (pc == Sending(id, status) && found && (status == Approved || status == Denied))
    ensures Good(s.Resolve(caller, pc).Log(Looked(caller, id, status, found)))
  {
    var e := Looked(caller, id, status, found);
    var t := s.Resolve(caller, pc).Log(e);
    assert RoomOk(RoomOf(s, id), id);
    forall q ensures RoomOk(RoomOf(t, q), q) {
      assert RoomOk(RoomOf(s, q), q);
      SaidAfter(s.log, e, q);
    }
    forall c ensures CallOk(CallOf(t, c), c, t.log) {
      assert CallOk(CallOf(s, c), c, s.log);
      HasLookedAfter(s.log, e, c);
    }
    LogGrows(s.log, e);
  }

  lemma FillKeepsGood(s: State, id: Id, vote: Vote)
    requires Good(s) && Inserted(id) in s.log && Looked(vote.caller, id, vote.status, true) in s.log
    requires vote.status == Approved || vote.status == Denied
    requires id in s.slots && s.slots[id].None?
    ensures Good(s.(slots := s.slots[id := Some(vote)]).Log(Sent(id, vote)))
  {
    assert RoomOk(RoomOf(s, id), id);
    SaidAfter(s.log, Sent(id, vote), id);
    MoveKeepsGood(s, id, s.(slots := s.slots[id := Some(vote)]).Log(Sent(id, vote)), Sent(id, vote));
  }

  lemma CallKeepsGood(s: State, action: Action)
    requires Good(s) && action.CallResolve?
    ensures Good(Next(s, action))
  {
    var CallResolve(caller, id, status) := action;
    assert CallOk(CallOf(s, caller), caller, s.log);
    if caller !in s.resolves {
      if status != Approved && status != Denied {
        CallMoveKeepsGood(s, caller, Finished);
        QuietEventKeepsGood(s.Resolve(caller, Finished), Resolved(caller, id, status, false));
      } else {
        CallMoveKeepsGood(s, caller, Looking(id, status));
      }
    }
  }

  lemma LookStepKeepsGood(s: State, caller: Caller)
    requires Good(s)
    ensures Good(Next(s, Look(caller)))
  {
    assert CallOk(CallOf(s, caller), caller, s.log);
    if caller in s.resolves && s.resolves[caller].Looking? {
      var Looking(id, status) := s.resolves[caller];
      if id in s.pending {
        LookKeepsGood(s, caller, id, status, true, Sending(id, status));
      } else {
        LookKeepsGood(s, caller, id, status, false, Finished);
        var looked := s.Resolve(caller, Finished).Log(Looked(caller, id, status, false));
        QuietEventKeepsGood(looked, Resolved(caller, id, status, false));
      }
    }
  }

  lemma SendKeepsGood(s: State, caller: Caller)
    requires Good(s)
    ensures Good(Next(s, Send(caller)))
  {
    assert CallOk(CallOf(s, caller), caller, s.log);
    if caller in s.resolves && s.resolves[caller].Sending? {
      var Sending(id, status) := s.resolves[caller];
      if id in s.slots && s.slots[id].None? {
        var vote := Vote(caller, status);
        var filled := s.(slots := s.slots[id := Some(vote)]).Log(Sent(id, vote));
        var moved := filled.Resolve(caller, Finished);
        FillKeepsGood(s, id, vote);
        CallMoveKeepsGood(filled, caller, Finished);
        QuietEventKeepsGood(moved, Resolved(caller, id, status, true));
        assert Next(s, Send(caller)) == moved.Log(Resolved(caller, id, status, true));
      }
    }
  }

  lemma NextKeepsGood(s: State, action: Action)
    requires Good(s)
    ensures Good(Next(s, action))
  {
    match action
    case Begin(_, _, _, _, _, _) => BeginKeepsGood(s, action);
    case Insert(id) => InsertKeepsGood(s, id);
    case Receive(_) => SelectKeepsGood(s, action);
    case GiveUp(_, _) => SelectKeepsGood(s, action);
    case Delete(id) => DeleteKeepsGood(s, id);
    case Return(id) => ReturnKeepsGood(s, id);
    case CallResolve(_, _, _) => CallKeepsGood(s, action);
    case Look(caller) => LookStepKeepsGood(s, caller);
    case Send(caller) => SendKeepsGood(s, caller);
    case List => ListKeepsGood(s);
  }

  lemma {:induction false} RunsAreGood(actions: seq<Action>)
    ensures Good(Exec(actions))
  {
    if actions == [] {
      assert forall id :: RoomOk(RoomOf(Empty, id), id);
      assert forall c :: CallOk(CallOf(Empty, c), c, Empty.log);
    } else {
      RunsAreGood(actions[..|actions| - 1]);
      NextKeepsGood(Exec(actions[..|actions| - 1]), actions[|actions| - 1]);
    }
  }

  // ---------- What this means for callers ----------

  /** What the policy step does with a request: 403, or on to the upstream. */
  datatype Verdict = Pass | Refused

  /** The outcome of the wait is only consulted for an approval rule. */
  function Denial(action: string, outcome: Outcome): Verdict {
    if action == "deny" then Refused
    else if action == "approval" && (outcome.GaveUp? || outcome.Status() != Approved) then Refused
    else Pass
  }

  /** Wait returns a status without a failure exactly when it is the first one sent; a failure reads as denied. */
  lemma ReturnedStatus(actions: seq<Action>, i: nat, status: Status)
    requires i < |Exec(actions).log| && Exec(actions).log[i].Returned?
    ensures var log := Exec(actions).log;
            var (outcome, first) := (log[i].outcome, FirstSent(log[..i], log[i].id));
            outcome.Status() == status
            <==> if outcome.GaveUp? then status == Denied else first.Some? && first.value.status == status
  {
    RunsAreGood(actions);
    var log := Exec(actions).log;
    assert EventOk(log[..i], log[i]);
  }

  /**
   Under an approval rule a request goes on exactly when its wait took a value and the first value
   sent was an approval; under a denying rule never, and under any other in any case.
   */
  lemma ApprovalRulePassesExactlyWhen(actions: seq<Action>, i: nat, action: string)
    requires i < |Exec(actions).log| && Exec(actions).log[i].Returned?
    ensures var log := Exec(actions).log;
            var (outcome, first) := (log[i].outcome, FirstSent(log[..i], log[i].id));
            Denial(action, outcome) == Pass <==>
              && action != "deny"
              && (action == "approval" ==> outcome.Took? && first.Some? && first.value.status == Approved)
  {
    ReturnedStatus(actions, i, Approved);
  }

  /** The first value sent was sent by a call of Resolve with that status. */
  lemma {:induction false} FirstSentWasSent(log: seq<Event>, id: Id)
    ensures FirstSent(log, id).Some? ==> Sent(id, FirstSent(log, id).value) in log
    ensures FirstSent(log, id).None? ==> forall vote :: Sent(id, vote) !in log
  {
    if log != [] {
      var before, last := log[..|log| - 1], log[|log| - 1];
      FirstSentWasSent(before, id);
      assert log == before + [last];
    }
  }

  /** A call of Resolve that looks after the delete finds nothing and does not answer true. */
  lemma LateResolveFails(actions: seq<Action>, i: nat, j: nat, k: nat, id: Id)
    requires i < j < |Exec(actions).log| && k < |Exec(actions).log|
    requires Exec(actions).log[i] == Deleted(id)
    requires Exec(actions).log[j].Looked? && Exec(actions).log[j].id == id
    requires Exec(actions).log[k].Resolved? && Exec(actions).log[k].caller == Exec(actions).log[j].caller
    ensures !Exec(actions).log[j].found && !Exec(actions).log[k].ok
  {
    RunsAreGood(actions);
    var log := Exec(actions).log;
    assert EventOk(log[..j], log[j]) && EventOk(log[..k], log[k]);
    assert log[..j][i] == Deleted(id);
    if log[k].ok {
      var look := Looked(log[k].caller, log[k].id, log[k].status, true);
      var m :| 0 <= m < k && log[..k][m] == look;
      OneLook(log, m, j);
      assert false;
    }
  }

  lemma OneLook(log: seq<Event>, i: nat, j: nat)
    requires LogOk(log) && i < |log| && j < |log| && log[i].Looked? && log[j].Looked? && log[i].caller == log[j].caller
    ensures i == j
  {
    if i < j {
      LookInPrefix(log, i, j);
    } else if j < i {
      LookInPrefix(log, j, i);
    }
    assert EventOk(log[..i], log[i]) && EventOk(log[..j], log[j]);
  }

  lemma LookInPrefix(log: seq<Event>, i: nat, j: nat)
    requires i < j < |log| && log[i].Looked?
    ensures HasLooked(log[..j], log[i].caller)
  {
    assert log[..j][i] == log[i];
  }

  /** A true answer means that this call sent its status, and an unknown status is never sent. */
  lemma ResolvedWasSent(actions: seq<Action>, i: nat)
    requires i < |Exec(actions).log| && Exec(actions).log[i].Resolved? && Exec(actions).log[i].ok
    ensures var e := Exec(actions).log[i];
            && Sent(e.id, Vote(e.caller, e.status)) in Exec(actions).log[..i]
            && (e.status == Approved || e.status == Denied)
  {
    RunsAreGood(actions);
    var log := Exec(actions).log;
    var e := log[i];
    assert EventOk(log[..i], e);
    var j :| 0 <= j < i && log[..i][j] == Sent(e.id, Vote(e.caller, e.status));
    assert EventOk(log[..j], log[j]);
  }

  /** A false answer means that the status is none the service knows, or that this call looked and found nothing. */
  lemma FalseOnlyWhen(actions: seq<Action>, i: nat)
    requires i < |Exec(actions).log| && Exec(actions).log[i].Resolved?
    ensures var e := Exec(actions).log[i];
            !e.ok <==> (e.status != Approved && e.status != Denied)
                       || Looked(e.caller, e.id, e.status, false) in Exec(actions).log[..i]
  {
    RunsAreGood(actions);
    var log := Exec(actions).log;
    var e := log[i];
    assert EventOk(log[..i], e);
    if e.ok {
      ResolvedWasSent(actions, i);
      var look := Looked(e.caller, e.id, e.status, true);
      var j :| 0 <= j < i && log[..i][j] == look;
      forall k | 0 <= k < i ensures log[k] != Looked(e.caller, e.id, e.status, false) {
        if log[k].Looked? && log[k].caller == e.caller {
          OneLook(log, j, k);
        }
      }
    }
  }

  /** What a call has sent is what it looked for. */
  lemma SentAfterLook(log: seq<Event>, n: nat, id: Id, vote: Vote)
    requires LogOk(log) && n <= |log| && Sent(id, vote) in log[..n]
    ensures Looked(vote.caller, id, vote.status, true) in log
  {
    var j :| 0 <= j < n && log[..n][j] == Sent(id, vote);
    assert EventOk(log[..j], log[j]);
    var m :| 0 <= m < j && log[..j][m] == Looked(vote.caller, id, vote.status, true);
    assert log[m] == Looked(vote.caller, id, vote.status, true);
  }

  /** A call sends one value on one channel. */
  lemma OneVote(log: seq<Event>, n: nat, id: Id, vote: Vote, k: nat, id': Id, vote': Vote)
    requires LogOk(log) && n <= |log| && k <= |log| && vote.caller == vote'.caller
    requires Sent(id, vote) in log[..n] && Sent(id', vote') in log[..k]
    ensures id == id' && vote == vote'
  {
    SentAfterLook(log, n, id, vote);
    SentAfterLook(log, k, id', vote');
    var i :| 0 <= i < |log| && log[i] == Looked(vote.caller, id, vote.status, true);
    var j :| 0 <= j < |log| && log[j] == Looked(vote.caller, id', vote'.status, true);
    OneLook(log, i, j);
  }

  /**
   Of the resolvers of a request that were told true, the one whose value the wait took is exactly
   the one that sent first, if the wait took a value at all; and then the wait returns its status.
   */
  lemma ResolvedIsTakenExactlyWhen(actions: seq<Action>, k: nat, i: nat)
    requires k < |Exec(actions).log| && Exec(actions).log[k].Resolved? && Exec(actions).log[k].ok
    requires i < |Exec(actions).log| && Exec(actions).log[i].Returned?
    requires Exec(actions).log[i].id == Exec(actions).log[k].id
    ensures var log := Exec(actions).log;
            var (outcome, first) := (log[i].outcome, FirstSent(log[..i], log[i].id));
            var sentFirst := first.Some? && first.value.caller == log[k].caller;
            && (outcome == Took(Vote(log[k].caller, log[k].status)) <==> outcome.Took? && sentFirst)
            && (outcome.Took? && sentFirst ==> outcome.Status() == log[k].status)
  {
    RunsAreGood(actions);
    var log := Exec(actions).log;
    var (outcome, first) := (log[i].outcome, FirstSent(log[..i], log[i].id));
    assert EventOk(log[..i], log[i]);
    ResolvedWasSent(actions, k);
    FirstSentWasSent(log[..i], log[i].id);
    if outcome.Took? && first.value.caller == log[k].caller {
      OneVote(log, i, log[i].id, first.value, k, log[k].id, Vote(log[k].caller, log[k].status));
    }
  }

  /** A list shows the requests that were inserted and not yet deleted, each under its own identifier and as pending. */
  lemma ListShowsPending(actions: seq<Action>, i: nat, id: Id)
    requires i < |Exec(actions).log| && Exec(actions).log[i].Listed?
    ensures var log := Exec(actions).log; var items := log[i].items;
            && (id in items <==> Inserted(id) in log[..i] && Deleted(id) !in log[..i])
            && (id in items ==> items[id].id == id && items[id].status == Pending)
  {
    RunsAreGood(actions);
    var log := Exec(actions).log;
    assert EventOk(log[..i], log[i]);
  }

  // ---------- Where it all comes from ----------

  /** The request as the call of Wait made it. */
  predicate AsAsked(actions: seq<Action>, q: Request) {
    q.status == Pending && Begin(q.id, q.verb, q.url, q.rule, q.note, q.createdAt) in actions
  }

  predicate EndedOutside(actions: seq<Action>, id: Id, outcome: Outcome) {
    outcome.GaveUp? ==> GiveUp(id, outcome.failure) in actions
  }

  ghost predicate WaitFrom(actions: seq<Action>, id: Id, pc: WaitPc) {
    match pc
    case Inserting(q) => AsAsked(actions, q)
    case Deleting(outcome) => EndedOutside(actions, id, outcome)
    case Leaving(outcome) => EndedOutside(actions, id, outcome)
    case _ => true
  }

  ghost predicate ResolveFrom(actions: seq<Action>, caller: Caller, pc: ResolvePc) {
    match pc
    case Looking(id, status) => CallResolve(caller, id, status) in actions
    case Sending(id, status) => CallResolve(caller, id, status) in actions
    case Finished => true
  }

  ghost predicate EventFrom(actions: seq<Action>, e: Event) {
    match e
    case Looked(caller, id, status, _) => CallResolve(caller, id, status) in actions
    case Sent(id, vote) => CallResolve(vote.caller, id, vote.status) in actions
    case Resolved(caller, id, status, _) => CallResolve(caller, id, status) in actions
    case Returned(id, outcome) => EndedOutside(actions, id, outcome)
    case Listed(items) => forall id :: id in items ==> AsAsked(actions, items[id])
    case _ => true
  }

  ghost predicate From(actions: seq<Action>, s: State) {
    && (forall id :: id in s.waits ==> WaitFrom(actions, id, s.waits[id]))
    && (forall id :: id in s.pending ==> AsAsked(actions, s.pending[id]))
    && (forall c :: c in s.resolves ==> ResolveFrom(actions, c, s.resolves[c]))
    && (forall e :: e in s.log ==> EventFrom(actions, e))
  }

  lemma FromMore(actions: seq<Action>, more: seq<Action>, s: State)
    requires From(actions, s) && forall a :: a in actions ==> a in more
    ensures From(more, s)
  {
  }

  lemma WaitsFrom(actions: seq<Action>, s: State, action: Action)
    requires From(actions, s) && action in actions
    ensures forall id :: id in Next(s, action).waits ==> WaitFrom(actions, id, Next(s, action).waits[id])
  {
    match action
    case Begin(_, _, _, _, _, _) =>
    case Insert(_) =>
    case Receive(_) =>
    case GiveUp(_, _) =>
    case Delete(_) =>
    case _ =>
  }

  lemma PendingFrom(actions: seq<Action>, s: State, action: Action)
    requires From(actions, s) && action in actions
    ensures forall id :: id in Next(s, action).pending ==> AsAsked(actions, Next(s, action).pending[id])
  {
    match action
    case Insert(id) => assert id in s.waits ==> WaitFrom(actions, id, s.waits[id]);
    case _ =>
  }

  lemma ResolvesFrom(actions: seq<Action>, s: State, action: Action)
    requires From(actions, s) && action in actions
    ensures forall c :: c in Next(s, action).resolves ==> ResolveFrom(actions, c, Next(s, action).resolves[c])
  {
    match action
    case CallResolve(_, _, _) =>
    case Look(_) =>
    case Send(_) =>
    case _ =>
  }

  lemma OneMoreFrom(actions: seq<Action>, log: seq<Event>, e: Event)
    requires (forall d :: d in log ==> EventFrom(actions, d)) && EventFrom(actions, e)
    ensures forall d :: d in log + [e] ==> EventFrom(actions, d)
  {
  }

  lemma LogFrom(actions: seq<Action>, s: State, action: Action)
    requires From(actions, s) && action in actions
    ensures forall e :: e in Next(s, action).log ==> EventFrom(actions, e)
  {
    match action
    case Look(caller) =>
      if caller in s.resolves && s.resolves[caller].Looking? {
        var Looking(id, status) := s.resolves[caller];
        var found := Looked(caller, id, status, id in s.pending);
        OneMoreFrom(actions, s.log, found);
        OneMoreFrom(actions, s.log + [found], Resolved(caller, id, status, false));
      }
    case Send(caller) =>
      if caller in s.resolves && s.resolves[caller].Sending? {
        var Sending(id, status) := s.resolves[caller];
        var sent := Sent(id, Vote(caller, status));
        OneMoreFrom(actions, s.log, sent);
        OneMoreFrom(actions, s.log + [sent], Resolved(caller, id, status, true));
      }
    case Return(id) =>
      if id in s.waits && s.waits[id].Leaving? {
        OneMoreFrom(actions, s.log, Returned(id, s.waits[id].outcome));
      }
    case CallResolve(caller, id, status) => OneMoreFrom(actions, s.log, Resolved(caller, id, status, false));
    case Insert(id) => OneMoreFrom(actions, s.log, Inserted(id));
    case Delete(id) => OneMoreFrom(actions, s.log, Deleted(id));
    case List => OneMoreFrom(actions, s.log, Listed(s.pending));
    case _ =>
  }

  lemma NextFrom(actions: seq<Action>, s: State, action: Action)
    requires From(actions, s) && action in actions
    ensures From(actions, Next(s, action))
  {
    WaitsFrom(actions, s, action);
    PendingFrom(actions, s, action);
    ResolvesFrom(actions, s, action);
    LogFrom(actions, s, action);
  }

  lemma {:induction false} RunsAreFrom(actions: seq<Action>)
    ensures From(actions, Exec(actions))
  {
    if actions != [] {
      var init, last := actions[..|actions| - 1], actions[|actions| - 1];
      RunsAreFrom(init);
      FromMore(init, actions, Exec(init));
      NextFrom(actions, Exec(init), last);
    }
  }

  /**
   In every run, what is observed comes from outside: a listed request is what its call of Wait
   described, a wait that gives up was timed out or cancelled, and a status that is sent or
   answered is the one the resolver named.
   */
  lemma ObservedComesFromCalls(actions: seq<Action>, i: nat)
    requires i < |Exec(actions).log|
    ensures EventFrom(actions, Exec(actions).log[i])
  {
    RunsAreFrom(actions);
    assert Exec(actions).log[i] in Exec(actions).log;
  }

  /**
   A true answer of Resolve does not mean that Wait returned that status: the wait may have given
   up after the look, and the value then stays on a channel that nobody reads.
   */
  lemma ResolvedNeedNotBeReturned()
    ensures exists s :: Reachable(s) && Resolved(0, "a", Approved, true) in s.log
                        && Returned("a", GaveUp(TimedOut)) in s.log
  {
    var s := GivenUp();
    var t := ReachNext(s, Send(0));
    assert t.log == s.log + [Sent("a", Vote(0, Approved))] + [Resolved(0, "a", Approved, true)];
    assert t.log[|s.log| - 1] == s.log[|s.log| - 1] && t.log[|s.log| + 1] == Resolved(0, "a", Approved, true);
  }

  /** Either status can be sent, answered true and returned by the wait. */
  lemma StatusIsReturned(status: Status)
    requires status == Approved || status == Denied
    ensures exists s :: Reachable(s) && Sent("a", Vote(0, status)) in s.log && Resolved(0, "a", status, true) in s.log
                        && Returned("a", Took(Vote(0, status))) in s.log
  {
    var found := LookedAndFound(status);
    var taken := SentAndTaken(found, Vote(0, status));
    var s := TakenAndReturned(taken, Vote(0, status));
    var n := |found.log|;
    assert s.log[n] == Sent("a", Vote(0, status)) && s.log[n + 1] == Resolved(0, "a", status, true);
    assert s.log[n + 3] == Returned("a", Took(Vote(0, status)));
  }

  lemma SentAndTaken(found: State, vote: Vote) returns (taken: State)
    requires Reachable(found) && found.waits == map["a" := Selecting] && found.slots == map["a" := None]
    requires vote.caller in found.resolves && found.resolves[vote.caller] == Sending("a", vote.status)
    ensures Reachable(taken) && "a" in taken.waits && taken.waits["a"] == Deleting(Took(vote))
    ensures taken.log == found.log + [Sent("a", vote), Resolved(vote.caller, "a", vote.status, true)]
  {
    var sent := ReachNext(found, Send(vote.caller));
    taken := ReachNext(sent, Receive("a"));
  }

  lemma TakenAndReturned(taken: State, vote: Vote) returns (s: State)
    requires Reachable(taken) && "a" in taken.waits && taken.waits["a"] == Deleting(Took(vote))
    ensures Reachable(s) && s.log == taken.log + [Deleted("a"), Returned("a", Took(vote))]
  {
    var deleted := ReachNext(taken, Delete("a"));
    s := ReachNext(deleted, Return("a"));
  }

  /** The wait gives up between the look and the send. */
  lemma GivenUp() returns (s: State)
    ensures Reachable(s) && s.slots == map["a" := None] && s.resolves == map[0 := Sending("a", Approved)]
    ensures s.log != [] && s.log[|s.log| - 1] == Returned("a", GaveUp(TimedOut))
  {
    s := LookedAndFound(Approved);
    s := ReachNext(s, GiveUp("a", TimedOut));
    s := ReachNext(s, Delete("a"));
    s := ReachNext(s, Return("a"));
  }

  /** A request that waits, and a resolver that has found it. */
  lemma LookedAndFound(status: Status) returns (s: State)
    requires status == Approved || status == Denied
    ensures Reachable(s) && s.waits == map["a" := Selecting] && s.slots == map["a" := None]
    ensures s.resolves == map[0 := Sending("a", status)]
  {
    EmptyIsReachable();
    var s1 := ReachNext(Empty, Begin("a", "GET", "u", "r", "", 0));
    var s2 := ReachNext(s1, Insert("a"));
    var s3 := ReachNext(s2, CallResolve(0, "a", status));
    s := ReachNext(s3, Look(0));
  }

  lemma EmptyIsReachable()
    ensures Reachable(Empty)
  {
    assert Exec([]) == Empty;
  }

  ghost predicate Reachable(s: State) {
    exists actions: seq<Action> :: Exec(actions) == s
  }

  lemma ReachNext(s: State, action: Action) returns (t: State)
    requires Reachable(s)
    ensures t == Next(s, action) && Reachable(t)
  {
    var actions: seq<Action> :| Exec(actions) == s;
    assert (actions + [action])[..|actions|] == actions;
    t := Exec(actions + [action]);
  }
}
