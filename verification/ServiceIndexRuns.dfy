/**
 Calls of Put that overlap. Each writes its description, reads the list and writes it back with its
 name at the end, and no lock spans the three; a run is any sequence of single accesses of any calls.
 */
module ServiceIndexRuns {
  import opened Distinct
  import opened ServiceIndex
  import opened Services
  import opened Text
  import opened Wrappers

  type Caller = nat

  datatype Pc =
    | Describing(name: string, service: Service)
    | Reading(name: string)
    | Writing(name: string, ids: seq<string>)
    | Finished(error: Option<IndexError>)

  datatype Event =
    | Described(name: string, service: Service)
    | Read(caller: Caller)
    | Wrote(caller: Caller, name: string)

  datatype State = State(entries: Entries, calls: map<Caller, Pc>, log: seq<Event>)
  {
    function Call(caller: Caller, pc: Pc): State {
      this.(calls := calls[caller := pc])
    }

    function Log(e: Event): State {
      this.(log := log + [e])
    }
  }

  datatype Action =
    | Begin(caller: Caller, item: Item)
    /** The next access of a call; the store may be down. */
    | Access(caller: Caller, storeUp: bool)

  function Start(validUrl: string -> bool, s: State, caller: Caller, item: Item): State {
    var name := TrimSpace(item.id);
    if caller in s.calls then s
    else if name == "" then s.Call(caller, Finished(Some(NoId)))
    else match Normalize(validUrl, name, item.service)
      case Err(e) => s.Call(caller, Finished(Some(Refused(e))))
      case Ok(n) => s.Call(caller, Describing(name, SanitizeForClient(n)))
  }

  /** The read of the list: the call ends here when its name is in it, or when it cannot be read. */
  function Look(s: State, caller: Caller, name: string): State {
    match ListIDs(s.entries)
    case Err(e) => s.Call(caller, Finished(Some(e)))
    case Ok(ids) => s.Call(caller, if name in ids then Finished(None) else Writing(name, ids)).Log(Read(caller))
  }

  function Next(validUrl: string -> bool, s: State, action: Action): State {
    match action
    case Begin(caller, item) => Start(validUrl, s, caller, item)
    case Access(caller, storeUp) =>
      if caller !in s.calls || s.calls[caller].Finished? then s
      else if !storeUp then s.Call(caller, Finished(Some(StoreFailed)))
      else match s.calls[caller]
        case Describing(name, service) =>
          s.(entries := s.entries[(name, SECRET_KEY) := ServiceText(name, service)])
           .Call(caller, Reading(name)).Log(Described(name, service))
        case Reading(name) => Look(s, caller, name)
        case Writing(name, ids) =>
          s.(entries := s.entries[INDEX := IdsText(ids + [name])]).Call(caller, Finished(None)).Log(Wrote(caller, name))
        case Finished(_) => s
  }

  function Exec(validUrl: string -> bool, m: Entries, actions: seq<Action>): State {
    if actions == [] then State(m, map[], [])
    else Next(validUrl, Exec(validUrl, m, actions[..|actions| - 1]), actions[|actions| - 1])
  }

  /** The first three accesses of a call after its start, with nothing in between. */
  function ThreeAccesses(validUrl: string -> bool, s: State, caller: Caller): State {
    Next(validUrl, Next(validUrl, Next(validUrl, s, Access(caller, true)), Access(caller, true)), Access(caller, true))
  }

  /** A call that nobody disturbs does what Put does, and ends with its error. */
  lemma AloneIsPut(validUrl: string -> bool, s: State, caller: Caller, item: Item)
    requires caller !in s.calls
    ensures var t := ThreeAccesses(validUrl, Start(validUrl, s, caller, item), caller);
            && caller in t.calls && t.calls[caller].Finished?
            && Put(validUrl, s.entries, item.id, item.service) == Written(t.entries, t.calls[caller].error)
  {
    var name := TrimSpace(item.id);
    TrimSpaceTwice(item.id);
    if Accepted(validUrl, item) {
      var service := SanitizeForClient(Normalize(validUrl, name, item.service).value);
      var begun := Start(validUrl, s, caller, item);
      DescribedAlone(validUrl, begun, caller, name, service);
    }
  }

  lemma DescribedAlone(validUrl: string -> bool, s: State, caller: Caller, name: string, service: Service)
    requires caller in s.calls && s.calls[caller] == Describing(name, service) && TrimSpace(name) == name && name != ""
    ensures var t := ThreeAccesses(validUrl, s, caller);
            var stored := s.entries[(name, SECRET_KEY) := ServiceText(name, service)];
            && caller in t.calls
            && match AddToIndex(stored, name)
               case Err(e) => t.entries == stored && t.calls[caller] == Finished(Some(e))
               case Ok(indexed) => t.entries == indexed && t.calls[caller] == Finished(None)
  {
  }

  // ---------- What a log says ----------

  /**
   The names on the way back from the last write of the list: the name it added, before it the one
   added by the last write that its call had read, and so on, back to the list at the start.
   */
  function Lineage(start: seq<string>, log: seq<Event>): seq<string>
    decreases |log|
  {
    if log == [] then start
    else
      var before, last := log[..|log| - 1], log[|log| - 1];
      if last.Wrote? then SeenBy(start, before, last.caller) + [last.name] else Lineage(start, before)
  }

  /** The same as of the last read of a call. */
  function SeenBy(start: seq<string>, log: seq<Event>, caller: Caller): seq<string>
    decreases |log|
  {
    if log == [] then start
    else
      var before := log[..|log| - 1];
      if log[|log| - 1] == Read(caller) then Lineage(start, before) else SeenBy(start, before, caller)
  }

  /** All names that were written, in the order of the writes. */
  function WrittenNames(log: seq<Event>): seq<string> {
    if log == [] then []
    else
      var before, last := WrittenNames(log[..|log| - 1]), log[|log| - 1];
      if last.Wrote? then before + [last.name] else before
  }

  predicate HasRead(log: seq<Event>, caller: Caller) {
    Read(caller) in log
  }

  /** The call's last read comes after the last write of the list. */
  predicate FreshRead(log: seq<Event>, caller: Caller) {
    log != [] && (log[|log| - 1] == Read(caller) || (!log[|log| - 1].Wrote? && FreshRead(log[..|log| - 1], caller)))
  }

  /** No write of the list falls between the read and the write of another call. */
  predicate Undisturbed(log: seq<Event>) {
    log != [] ==>
      var before, last := log[..|log| - 1], log[|log| - 1];
      Undisturbed(before) && (last.Wrote? ==> FreshRead(before, last.caller))
  }

  /** The last description that was written for a name. */
  function LastDescribed(log: seq<Event>, name: string): Option<Service> {
    if log == [] then None
    else
      var last := log[|log| - 1];
      if last.Described? && last.name == name then Some(last.service) else LastDescribed(log[..|log| - 1], name)
  }

  lemma AfterEvent(start: seq<string>, log: seq<Event>, e: Event, caller: Caller)
    ensures Lineage(start, log + [e])
            == if e.Wrote? then SeenBy(start, log, e.caller) + [e.name] else Lineage(start, log)
    ensures SeenBy(start, log + [e], caller)
            == if e == Read(caller) then Lineage(start, log) else SeenBy(start, log, caller)
    ensures HasRead(log + [e], caller) == (HasRead(log, caller) || e == Read(caller))
  {
    assert (log + [e])[..|log|] == log && (log + [e])[|log|] == e;
  }

  // ---------- What every step keeps ----------

  predicate IsName(name: string) {
    name != "" && Trimmed(name)
  }

  /** A list as it is read: names, each once. */
  ghost predicate IsList(ids: seq<string>) {
    NoRepeats(ids) && forall id :: id in ids ==> IsName(id)
  }

  ghost predicate CallOk(validUrl: string -> bool, start: seq<string>, log: seq<Event>, caller: Caller, pc: Pc) {
    match pc
    case Describing(name, service) => IsName(name) && Normalize(validUrl, name, service) == Ok(service)
    case Reading(name) => IsName(name)
    case Writing(name, ids) =>
      IsName(name) && name !in ids && IsList(ids) && ids == SeenBy(start, log, caller) && HasRead(log, caller)
    case Finished(_) => true
  }

  ghost predicate WritesRead(log: seq<Event>) {
    log != [] ==>
      var before, last := log[..|log| - 1], log[|log| - 1];
      WritesRead(before) && (last.Wrote? ==> HasRead(before, last.caller))
  }

  ghost predicate Good(validUrl: string -> bool, start: seq<string>, s: State) {
    && ListIDs(s.entries) == Ok(Lineage(start, s.log))
    && WritesRead(s.log)
    && forall caller :: caller in s.calls ==> CallOk(validUrl, start, s.log, caller, s.calls[caller])
  }

  /** A move of one call that logs `e` keeps what is known of the others. */
  lemma MoveKeepsGood(validUrl: string -> bool, start: seq<string>, s: State, caller: Caller, e: Event, t: State)
    requires Good(validUrl, start, s)
    requires t.log == s.log + [e] && caller in t.calls && t.calls == s.calls[caller := t.calls[caller]]
    requires e.Read? || e.Wrote? ==> e.caller == caller
    requires e.Wrote? ==> HasRead(s.log, caller)
    requires ListIDs(t.entries) == Ok(Lineage(start, t.log)) && CallOk(validUrl, start, t.log, caller, t.calls[caller])
    ensures Good(validUrl, start, t)
  {
    assert t.log[..|s.log|] == s.log && t.log[|s.log|] == e;
    forall c | c in t.calls ensures CallOk(validUrl, start, t.log, c, t.calls[c]) {
      if c != caller {
        assert CallOk(validUrl, start, s.log, c, s.calls[c]);
        AfterEvent(start, s.log, e, c);
      }
    }
  }

  lemma StartKeepsGood(validUrl: string -> bool, start: seq<string>, s: State, caller: Caller, item: Item)
    requires Good(validUrl, start, s)
    ensures Good(validUrl, start, Start(validUrl, s, caller, item))
  {
    var name := TrimSpace(item.id);
    TrimSpaceTrims(item.id);
    if caller !in s.calls && name != "" && Normalize(validUrl, name, item.service).Ok? {
      NormalizedIsFixed(validUrl, name, item.service);
    }
  }

  lemma DescribeKeepsGood(validUrl: string -> bool, start: seq<string>, s: State, caller: Caller)
    requires Good(validUrl, start, s) && caller in s.calls && s.calls[caller].Describing?
    ensures Good(validUrl, start, Next(validUrl, s, Access(caller, true)))
  {
    var Describing(name, service) := s.calls[caller];
    var e := Described(name, service);
    assert CallOk(validUrl, start, s.log, caller, s.calls[caller]);
    AfterEvent(start, s.log, e, caller);
    MoveKeepsGood(validUrl, start, s, caller, e, Next(validUrl, s, Access(caller, true)));
  }

  lemma LookKeepsGood(validUrl: string -> bool, start: seq<string>, s: State, caller: Caller)
    requires Good(validUrl, start, s) && caller in s.calls && s.calls[caller].Reading?
    ensures Good(validUrl, start, Next(validUrl, s, Access(caller, true)))
  {
    assert CallOk(validUrl, start, s.log, caller, s.calls[caller]);
    ListedNames(s.entries);
    AfterEvent(start, s.log, Read(caller), caller);
    MoveKeepsGood(validUrl, start, s, caller, Read(caller), Next(validUrl, s, Access(caller, true)));
  }

  lemma WrittenIsListed(m: Entries, ids: seq<string>, name: string, listed: seq<string>)
    requires listed == ids + [name] && IsList(ids) && IsName(name) && name !in ids
    ensures ListIDs(m[INDEX := IdsText(listed)]) == Ok(listed)
  {
    NewNameListed(m, ids, name);
    FirstsOfNoRepeats(listed);
  }

  lemma WriteKeepsGood(validUrl: string -> bool, start: seq<string>, s: State, caller: Caller)
    requires Good(validUrl, start, s) && caller in s.calls && s.calls[caller].Writing?
    ensures Good(validUrl, start, Next(validUrl, s, Access(caller, true)))
  {
    var Writing(name, ids) := s.calls[caller];
    var e := Wrote(caller, name);
    assert CallOk(validUrl, start, s.log, caller, s.calls[caller]);
    WrittenIsListed(s.entries, ids, name, ids + [name]);
    AfterEvent(start, s.log, e, caller);
    MoveKeepsGood(validUrl, start, s, caller, e, Next(validUrl, s, Access(caller, true)));
  }

  lemma NextKeepsGood(validUrl: string -> bool, start: seq<string>, s: State, action: Action)
    requires Good(validUrl, start, s)
    ensures Good(validUrl, start, Next(validUrl, s, action))
  {
    match action
    case Begin(caller, item) => StartKeepsGood(validUrl, start, s, caller, item);
    case Access(caller, storeUp) =>
      if storeUp && caller in s.calls {
        match s.calls[caller]
        case Describing(_, _) => DescribeKeepsGood(validUrl, start, s, caller);
        case Reading(_) => LookKeepsGood(validUrl, start, s, caller);
        case Writing(_, _) => WriteKeepsGood(validUrl, start, s, caller);
        case Finished(_) =>
      }
  }

  lemma {:induction false} RunsAreGood(validUrl: string -> bool, m: Entries, actions: seq<Action>)
    requires ListIDs(m).Ok?
    ensures Good(validUrl, ListIDs(m).value, Exec(validUrl, m, actions))
  {
    if actions != [] {
      var init := actions[..|actions| - 1];
      RunsAreGood(validUrl, m, init);
      NextKeepsGood(validUrl, ListIDs(m).value, Exec(validUrl, m, init), actions[|actions| - 1]);
    }
  }

  // ---------- What is listed ----------

  lemma {:induction false} StartIsPrefix(start: seq<string>, log: seq<Event>, caller: Caller)
    ensures start <= Lineage(start, log) && start <= SeenBy(start, log, caller)
    decreases |log|
  {
    if log != [] {
      StartIsPrefix(start, log[..|log| - 1], caller);
      if log[|log| - 1].Wrote? {
        StartIsPrefix(start, log[..|log| - 1], log[|log| - 1].caller);
      }
    }
  }

  /**
   After any interleaving the list is exactly the lineage of its last write. So a name is listed
   exactly when it is on that way back; what was listed at the start always is, and nothing is twice.
   */
  lemma ListIsLineage(validUrl: string -> bool, m: Entries, actions: seq<Action>)
    requires ListIDs(m).Ok?
    ensures var (start, s) := (ListIDs(m).value, Exec(validUrl, m, actions));
            && ListIDs(s.entries) == Ok(Lineage(start, s.log))
            && start <= Lineage(start, s.log) && NoRepeats(Lineage(start, s.log))
  {
    RunsAreGood(validUrl, m, actions);
    ListedNames(Exec(validUrl, m, actions).entries);
    StartIsPrefix(ListIDs(m).value, Exec(validUrl, m, actions).log, 0);
  }

  lemma {:induction false} FreshSeesAll(start: seq<string>, log: seq<Event>, caller: Caller)
    requires FreshRead(log, caller)
    ensures SeenBy(start, log, caller) == Lineage(start, log)
  {
    if log[|log| - 1] != Read(caller) {
      FreshSeesAll(start, log[..|log| - 1], caller);
    }
  }

  /** The way back is no longer than the number of writes, and shorter for a call whose read is not fresh. */
  lemma {:induction false} LineageIsShort(start: seq<string>, log: seq<Event>, caller: Caller)
    ensures |Lineage(start, log)| <= |start| + |WrittenNames(log)|
    ensures |SeenBy(start, log, caller)| <= |start| + |WrittenNames(log)|
    ensures HasRead(log, caller) && !FreshRead(log, caller)
            ==> |SeenBy(start, log, caller)| < |start| + |WrittenNames(log)|
    decreases |log|
  {
    if log != [] {
      var before, last := log[..|log| - 1], log[|log| - 1];
      LineageIsShort(start, before, caller);
      if last.Wrote? {
        LineageIsShort(start, before, last.caller);
      }
      assert HasRead(log, caller) ==> HasRead(before, caller) || last == Read(caller);
    }
  }

  /** The list is the one at the start and all names written, in order, exactly when no write disturbs another call. */
  lemma {:induction false} AllListedExactlyWhen(start: seq<string>, log: seq<Event>)
    requires WritesRead(log)
    ensures Lineage(start, log) == start + WrittenNames(log) <==> Undisturbed(log)
  {
    if log != [] {
      var before, last := log[..|log| - 1], log[|log| - 1];
      AllListedExactlyWhen(start, before);
      if last.Wrote? {
        var seen := SeenBy(start, before, last.caller);
        LineageIsShort(start, before, last.caller);
        assert start + WrittenNames(log) == start + WrittenNames(before) + [last.name];
        if FreshRead(before, last.caller) {
          FreshSeesAll(start, before, last.caller);
          assert (seen + [last.name])[..|seen|] == seen;
          assert (start + WrittenNames(log))[..|start + WrittenNames(before)|] == start + WrittenNames(before);
        }
      }
    }
  }

  lemma NothingIsLostExactlyWhen(validUrl: string -> bool, m: Entries, actions: seq<Action>)
    requires ListIDs(m).Ok?
    ensures var s := Exec(validUrl, m, actions);
            ListIDs(s.entries) == Ok(ListIDs(m).value + WrittenNames(s.log)) <==> Undisturbed(s.log)
  {
    RunsAreGood(validUrl, m, actions);
    AllListedExactlyWhen(ListIDs(m).value, Exec(validUrl, m, actions).log);
  }

  /** The write at `k` was worked out from a read before the event at `j`. */
  ghost predicate Stale(log: seq<Event>, j: nat, k: nat)
    requires k < |log| && log[k].Wrote?
  {
    forall r :: j < r < k ==> log[r] != Read(log[k].caller)
  }

  lemma {:induction false} SeenSince(start: seq<string>, log: seq<Event>, j: nat, n: nat, caller: Caller, name: string)
    requires j < n <= |log| && forall p :: j < p <= n ==> name in Lineage(start, log[..p])
    requires exists r :: j < r < n && log[r] == Read(caller)
    ensures name in SeenBy(start, log[..n], caller)
  {
    assert log[..n][..n - 1] == log[..n - 1];
    if log[n - 1] != Read(caller) {
      SeenSince(start, log, j, n - 1, caller, name);
    }
  }

  lemma {:induction false} StaysInLineage(start: seq<string>, log: seq<Event>, j: nat, n: nat)
    requires j < n <= |log| && log[j].Wrote?
    requires forall k :: j < k < n && log[k].Wrote? ==> !Stale(log, j, k)
    ensures forall p :: j < p <= n ==> log[j].name in Lineage(start, log[..p])
  {
    assert log[..n][..n - 1] == log[..n - 1];
    if n > j + 1 {
      StaysInLineage(start, log, j, n - 1);
      if log[n - 1].Wrote? {
        assert !Stale(log, j, n - 1);
        SeenSince(start, log, j, n - 1, log[n - 1].caller, log[j].name);
      }
    }
  }

  /** A name that a call wrote is listed afterwards, unless a write follows that comes from a read before it. */
  lemma UnlistedByStaleWrite(validUrl: string -> bool, m: Entries, actions: seq<Action>, j: nat)
    requires ListIDs(m).Ok?
    requires j < |Exec(validUrl, m, actions).log| && Exec(validUrl, m, actions).log[j].Wrote?
    ensures var s := Exec(validUrl, m, actions);
            && ListIDs(s.entries).Ok?
            && (s.log[j].name in ListIDs(s.entries).value
                || exists k :: j < k < |s.log| && s.log[k].Wrote? && Stale(s.log, j, k))
  {
    var s := Exec(validUrl, m, actions);
    RunsAreGood(validUrl, m, actions);
    if forall k :: j < k < |s.log| && s.log[k].Wrote? ==> !Stale(s.log, j, k) {
      StaysInLineage(ListIDs(m).value, s.log, j, |s.log|);
      assert s.log[..|s.log|] == s.log;
    }
  }

  // ---------- What can be read ----------

  /** Descriptions are never lost, listed or not: each name reads back as the last one written for it. */
  lemma {:induction false} DescriptionIsLast(validUrl: string -> bool, m: Entries, actions: seq<Action>, id: string)
    requires ListIDs(m).Ok?
    ensures var s := Exec(validUrl, m, actions);
            Get(validUrl, s.entries, id) ==
              match LastDescribed(s.log, TrimSpace(id))
              case Some(service) => Ok(Some(service))
              case None => Get(validUrl, m, id)
  {
    if actions != [] {
      var init := actions[..|actions| - 1];
      DescriptionIsLast(validUrl, m, init, id);
      RunsAreGood(validUrl, m, init);
      StepKeepsDescriptions(validUrl, ListIDs(m).value, Exec(validUrl, m, init), actions[|actions| - 1], id);
    }
  }

  /** What one step does to what is read under a name. */
  ghost predicate DescribesOnly(validUrl: string -> bool, s: State, t: State, id: string) {
    if t.log == s.log then Get(validUrl, t.entries, id) == Get(validUrl, s.entries, id)
    else
      && |t.log| > 0 && t.log[..|t.log| - 1] == s.log
      && var e := t.log[|t.log| - 1];
      Get(validUrl, t.entries, id) ==
        if e.Described? && e.name == TrimSpace(id) then Ok(Some(e.service)) else Get(validUrl, s.entries, id)
  }

  lemma StepKeepsDescriptions(validUrl: string -> bool, start: seq<string>, s: State, action: Action, id: string)
    requires Good(validUrl, start, s)
    ensures DescribesOnly(validUrl, s, Next(validUrl, s, action), id)
  {
    match action
    case Begin(_, _) =>
    case Access(caller, storeUp) =>
      if storeUp && caller in s.calls {
        assert CallOk(validUrl, start, s.log, caller, s.calls[caller]);
        match s.calls[caller]
        case Describing(name, service) => DescribedIsRead(validUrl, s, Next(validUrl, s, action), name, service, id);
        case Reading(_) =>
        case Writing(name, ids) => IndexIsNotRead(validUrl, s.entries, IdsText(ids + [name]), id);
        case Finished(_) =>
      }
  }

  lemma DescribedIsRead(validUrl: string -> bool, s: State, t: State, name: string, service: Service, id: string)
    requires t.entries == s.entries[(name, SECRET_KEY) := ServiceText(name, service)] && IsName(name)
    requires Normalize(validUrl, name, service) == Ok(service) && t.log == s.log + [Described(name, service)]
    ensures DescribesOnly(validUrl, s, t, id)
  {
  }

  lemma IndexIsNotRead(validUrl: string -> bool, m: Entries, payload: Payload, id: string)
    ensures Get(validUrl, m[INDEX := payload], id) == Get(validUrl, m, id)
  {
    assert SECRET_KEY != INDEX.1;
  }

  // ---------- Runs in which calls overlap ----------

  predicate At(s: State, caller: Caller, pc: Pc) {
    caller in s.calls && s.calls[caller] == pc
  }

  ghost predicate Reachable(validUrl: string -> bool, m: Entries, s: State) {
    exists actions: seq<Action> :: Exec(validUrl, m, actions) == s
  }

  lemma ReachNext(validUrl: string -> bool, m: Entries, s: State, action: Action) returns (t: State)
    requires Reachable(validUrl, m, s)
    ensures t == Next(validUrl, s, action) && Reachable(validUrl, m, t)
  {
    var actions: seq<Action> :| Exec(validUrl, m, actions) == s;
    assert (actions + [action])[..|actions|] == actions;
    t := Exec(validUrl, m, actions + [action]);
  }

  /** A call that has written its description. */
  lemma ReachDescribed(validUrl: string -> bool, s: State, caller: Caller, item: Item) returns (t: State)
    requires Reachable(validUrl, map[], s) && caller !in s.calls && Accepted(validUrl, item)
    ensures Reachable(validUrl, map[], t) && ListIDs(t.entries) == ListIDs(s.entries)
    ensures t.entries.Keys == s.entries.Keys + {(TrimSpace(item.id), SECRET_KEY)}
    ensures t.calls == s.calls[caller := Reading(TrimSpace(item.id))] && IsName(TrimSpace(item.id))
  {
    TrimSpaceTrims(item.id);
    var begun := ReachNext(validUrl, map[], s, Begin(caller, item));
    t := ReachNext(validUrl, map[], begun, Access(caller, true));
  }

  lemma ReachRead(validUrl: string -> bool, s: State, caller: Caller, name: string, ids: seq<string>) returns (t: State)
    requires Reachable(validUrl, map[], s) && At(s, caller, Reading(name))
    requires ListIDs(s.entries) == Ok(ids) && name !in ids
    ensures Reachable(validUrl, map[], t) && t.entries == s.entries
    ensures t.calls == s.calls[caller := Writing(name, ids)] && t.log == s.log + [Read(caller)]
  {
    t := ReachNext(validUrl, map[], s, Access(caller, true));
  }

  lemma ReachWritten(validUrl: string -> bool, s: State, caller: Caller, name: string, ids: seq<string>,
                     listed: seq<string>)
    returns (t: State)
    requires Reachable(validUrl, map[], s) && At(s, caller, Writing(name, ids))
    requires listed == ids + [name] && IsList(ids) && IsName(name) && name !in ids
    ensures Reachable(validUrl, map[], t) && ListIDs(t.entries) == Ok(listed)
    ensures t.entries.Keys == s.entries.Keys + {INDEX}
    ensures t.calls == s.calls[caller := Finished(None)] && t.log == s.log + [Wrote(caller, name)]
  {
    t := ReachNext(validUrl, map[], s, Access(caller, true));
    WrittenIsListed(s.entries, ids, name, listed);
  }

  lemma EmptyIsReachable(validUrl: string -> bool)
    ensures Reachable(validUrl, map[], State(map[], map[], []))
  {
    assert Exec(validUrl, map[], []) == State(map[], map[], []);
  }

  /** Two calls that are about to read the list, which is empty. */
  lemma TwoDescribed(validUrl: string -> bool, a: Item, b: Item, x: string, y: string) returns (s: State)
    requires Accepted(validUrl, a) && Accepted(validUrl, b) && x == TrimSpace(a.id) && y == TrimSpace(b.id)
    ensures Reachable(validUrl, map[], s) && At(s, 0, Reading(x)) && At(s, 1, Reading(y)) && 2 !in s.calls
    ensures IsName(x) && IsName(y) && ListIDs(s.entries) == Ok([]) && (x, SECRET_KEY) in s.entries
  {
    EmptyIsReachable(validUrl);
    var one := ReachDescribed(validUrl, State(map[], map[], []), 0, a);
    s := ReachDescribed(validUrl, one, 1, b);
  }

  lemma TwoWritten(validUrl: string -> bool, s: State, x: string, y: string) returns (t: State)
    requires Reachable(validUrl, map[], s) && At(s, 0, Reading(x)) && At(s, 1, Reading(y))
    requires IsName(x) && IsName(y) && ListIDs(s.entries) == Ok([])
    ensures Reachable(validUrl, map[], t) && At(t, 0, Finished(None)) && At(t, 1, Finished(None))
    ensures ListIDs(t.entries) == Ok([y]) && s.entries.Keys <= t.entries.Keys
  {
    var s1 := ReachRead(validUrl, s, 0, x, []);
    var s2 := ReachRead(validUrl, s1, 1, y, []);
    var s3 := ReachWritten(validUrl, s2, 0, x, [], [x]);
    t := ReachWritten(validUrl, s3, 1, y, [], [y]);
  }

  /** Two overlapping calls both report success, and the first one's description is stored but its name not listed. */
  lemma OverlappingPutsLoseOne(validUrl: string -> bool, a: Item, b: Item) returns (s: State)
    requires Accepted(validUrl, a) && Accepted(validUrl, b) && TrimSpace(a.id) != TrimSpace(b.id)
    ensures Reachable(validUrl, map[], s) && At(s, 0, Finished(None)) && At(s, 1, Finished(None))
    ensures (TrimSpace(a.id), SECRET_KEY) in s.entries
    ensures ListIDs(s.entries) == Ok([TrimSpace(b.id)]) && TrimSpace(a.id) !in [TrimSpace(b.id)]
  {
    var (x, y) := (TrimSpace(a.id), TrimSpace(b.id));
    var both := TwoDescribed(validUrl, a, b, x, y);
    s := TwoWritten(validUrl, both, x, y);
  }

  /** Two have read the empty list, and a third is about to read. */
  lemma TwoOfThreeRead(validUrl: string -> bool, a: Item, b: Item, c: Item, x: string, y: string, z: string)
    returns (s: State)
    requires Accepted(validUrl, a) && Accepted(validUrl, b) && Accepted(validUrl, c)
    requires x == TrimSpace(a.id) && y == TrimSpace(b.id) && z == TrimSpace(c.id)
    ensures Reachable(validUrl, map[], s) && IsName(x) && IsName(y) && IsName(z)
    ensures At(s, 0, Writing(x, [])) && At(s, 1, Reading(y)) && At(s, 2, Writing(z, []))
  {
    var two := TwoDescribed(validUrl, a, b, x, y);
    var three := ReachDescribed(validUrl, two, 2, c);
    var third := ReachRead(validUrl, three, 2, z, []);
    s := ReachRead(validUrl, third, 0, x, []);
  }

  /** A lost name can come back: the write that drops it is followed by one from a read that still saw it. */
  lemma StaleWriteNeedNotUnlist(validUrl: string -> bool, a: Item, b: Item, c: Item)
    returns (s: State, j: nat, k: nat)
    requires Accepted(validUrl, a) && Accepted(validUrl, b) && Accepted(validUrl, c)
    requires NoRepeats([TrimSpace(a.id), TrimSpace(b.id), TrimSpace(c.id)])
    ensures Reachable(validUrl, map[], s) && ListIDs(s.entries) == Ok([TrimSpace(a.id), TrimSpace(b.id)])
    ensures j < k < |s.log| && s.log[j] == Wrote(0, TrimSpace(a.id)) && s.log[k].Wrote? && Stale(s.log, j, k)
  {
    var (x, y, z) := (TrimSpace(a.id), TrimSpace(b.id), TrimSpace(c.id));
    assert x != y by {
      assert [x, y, z][0] != [x, y, z][1];
    }
    var two := TwoOfThreeRead(validUrl, a, b, c, x, y, z);
    s, j, k := LostAndBack(validUrl, two, x, y, z);
  }

  lemma LostAndBack(validUrl: string -> bool, two: State, x: string, y: string, z: string)
    returns (s: State, j: nat, k: nat)
    requires Reachable(validUrl, map[], two) && IsName(x) && IsName(y) && IsName(z) && x != y
    requires At(two, 0, Writing(x, [])) && At(two, 1, Reading(y)) && At(two, 2, Writing(z, []))
    ensures Reachable(validUrl, map[], s) && ListIDs(s.entries) == Ok([x, y])
    ensures j < k < |s.log| && s.log[j] == Wrote(0, x) && s.log[k].Wrote? && Stale(s.log, j, k)
  {
    var one := WrittenAndRead(validUrl, two, x, y, z);
    s := BothWritten(validUrl, one, x, y, z);
    j, k := |two.log|, |two.log| + 2;
    assert s.log == two.log + [Wrote(0, x), Read(1), Wrote(2, z), Wrote(1, y)];
  }

  lemma WrittenAndRead(validUrl: string -> bool, two: State, x: string, y: string, z: string) returns (s: State)
    requires Reachable(validUrl, map[], two) && IsName(x) && x != y
    requires At(two, 0, Writing(x, [])) && At(two, 1, Reading(y)) && At(two, 2, Writing(z, []))
    ensures Reachable(validUrl, map[], s) && At(s, 1, Writing(y, [x])) && At(s, 2, Writing(z, []))
    ensures s.log == two.log + [Wrote(0, x), Read(1)]
  {
    var written := ReachWritten(validUrl, two, 0, x, [], [x]);
    s := ReachRead(validUrl, written, 1, y, [x]);
  }

  lemma BothWritten(validUrl: string -> bool, one: State, x: string, y: string, z: string) returns (s: State)
    requires Reachable(validUrl, map[], one) && IsName(x) && IsName(y) && IsName(z) && x != y
    requires At(one, 1, Writing(y, [x])) && At(one, 2, Writing(z, []))
    ensures Reachable(validUrl, map[], s) && ListIDs(s.entries) == Ok([x, y])
    ensures s.log == one.log + [Wrote(2, z), Wrote(1, y)]
  {
    var written := ReachWritten(validUrl, one, 2, z, [], [z]);
    s := ReachWritten(validUrl, written, 1, y, [x], [x, y]);
  }
}
