/**
  The settings provider under concurrency.  Callers advance in atomic steps between which any other
  caller may run: a cancellable gate admits one mutator at a time, and a separate reader/writer lock on
  the store is free while validators and the persist callback run.  A schedule is any sequence of
  caller-and-action choices, so "for every schedule" ranges over every interleaving.
 */
module SettingsProtocol {
  import opened Wrappers
  import opened SettingNormalization
  import opened Settings

  type Caller = nat

  datatype Request =
    | Commit(values: map<string, Val>, durable: bool)     // durable: there is a persist callback
    | Reset(id: string)
    | Registration(category: string, settings: seq<Setting>)
    | Read                                                // any number of looks under one read lock

  datatype Outcome = Succeeded | Failed(error: Error) | Snapshot(views: seq<Store>)

  datatype PC =
    | Waiting                                             // not yet admitted
    | Entered                                             // took the gate, context not yet rechecked
    | Admitted
    | Preparing(todo: set<string>, read: seq<Entry>)      // under the read lock
    | Normalizing(entries: seq<Entry>, n: nat)            // no store lock; validators run
    | Offering(entries: seq<Entry>)                       // about to persist
    | Accepted(entries: seq<Entry>)                       // persisted, or nothing to persist
    | Publishing(entries: seq<Entry>, n: nat)             // under the write lock
    | Locked                                              // reset or registration, under the write lock
    | Written(m: Mutation)
    | Refused(error: Error)
    | Leaving(outcome: Outcome)                           // still holds the gate
    | Reading(views: seq<Store>)
    | Done(outcome: Outcome)

  datatype Config = Config(p: Platform, pluginID: string, requests: map<Caller, Request>, initial: Store)

  /**
    `log`, `offers` and `entered` record, in order, the mutations whose lock was released, the accepted
    payloads, and the callers that took the gate.
   */
  datatype State = State(
    pcs: map<Caller, PC>, cancelled: set<Caller>,
    gate: Option<Caller>, writer: Option<Caller>, readers: set<Caller>,
    store: Store,
    log: seq<(Caller, Mutation)>, offers: seq<(Caller, map<string, Val>)>, entered: seq<Caller>)

  datatype Action =
    | Cancel | Enter | GiveUp | Recheck
    | LockForReading | ReadOne(id: string) | Observe | UnlockReading
    | NormalizeOne(valid: bool) | Poll | Persist(ok: bool)
    | LockForWriting | Write | UnlockWriting | Leave

  function Init(c: Config): State {
    State(map t | t in c.requests :: Waiting, {}, None, None, {}, c.initial, [], [], [])
  }

  function Set(s: State, t: Caller, pc: PC): State {
    s.(pcs := s.pcs[t := pc])
  }

  // ---------- the gate ----------

  function DoGate(c: Config, s: State, t: Caller, a: Action): State
    requires t in s.pcs && t in c.requests
  {
    var pc, request := s.pcs[t], c.requests[t];
    match a
    case Enter =>
      if pc.Waiting? && !request.Read? && s.gate.None? then
        Set(s, t, Entered).(gate := Some(t), entered := s.entered + [t])
      else s
    case GiveUp =>
      if pc.Waiting? && request.Commit? && t in s.cancelled then Set(s, t, Done(Failed(Cancelled))) else s
    case Recheck =>
      if !pc.Entered? then s
      else if request.Commit? && t in s.cancelled then Set(s, t, Done(Failed(Cancelled))).(gate := None)
      else Set(s, t, Admitted)
    case Leave =>
      if pc.Leaving? then Set(s, t, Done(pc.outcome)).(gate := None) else s
    case _ => s
  }

  // ---------- under the read lock ----------

  function DoRead(c: Config, s: State, t: Caller, a: Action): State
    requires t in s.pcs && t in c.requests
  {
    var pc, request := s.pcs[t], c.requests[t];
    match a
    case LockForReading =>
      if s.writer.Some? then s
      else if pc.Admitted? && request.Commit? then
        Set(s, t, Preparing(request.values.Keys, [])).(readers := s.readers + {t})
      else if pc.Waiting? && request.Read? then Set(s, t, Reading([])).(readers := s.readers + {t})
      else s
    case ReadOne(id) =>
      if !pc.Preparing? || id !in pc.todo then s
      else
        var read := GetSetting(s.store, c.pluginID, id);
        if read.Err? then Set(s, t, Leaving(Failed(read.error))).(readers := s.readers - {t})
        else
          var entry := Entry(id, ParseSettingID(c.pluginID, id).value, read.value);
          Set(s, t, Preparing(pc.todo - {id}, pc.read + [entry]))
    case Observe => if pc.Reading? then Set(s, t, Reading(pc.views + [s.store])) else s
    case UnlockReading =>
      if pc.Preparing? && pc.todo == {} then Set(s, t, Normalizing(pc.read, 0)).(readers := s.readers - {t})
      else if pc.Reading? then Set(s, t, Done(Snapshot(pc.views))).(readers := s.readers - {t})
      else s
    case _ => s
  }

  // ---------- no store lock: validators and persistence ----------

  function DoCallbacks(c: Config, s: State, t: Caller, a: Action): State
    requires t in s.pcs && t in c.requests
  {
    var pc, request := s.pcs[t], c.requests[t];
    match a
    case NormalizeOne(valid) =>
      if !(pc.Normalizing? && pc.n < |pc.entries| && request.Commit? && pc.entries[pc.n].id in request.values) then s
      else
        var e := pc.entries[pc.n];
        var v := NormalizeValue(c.p, e.setting.Form(), request.values[e.id]);
        if v.None? then Set(s, t, Leaving(Failed(TypeMismatch)))
        else if !valid then Set(s, t, Leaving(Failed(Rejected)))
        else Set(s, t, Normalizing(pc.entries[pc.n := e.(setting := e.setting.(value := v.value))], pc.n + 1))
    case Poll =>
      if !(pc.Normalizing? && pc.n == |pc.entries|) then s
      else if t in s.cancelled then Set(s, t, Leaving(Failed(Cancelled)))
      else Set(s, t, Offering(pc.entries))
    case Persist(ok) =>
      if !(pc.Offering? && request.Commit?) then s
      else if !request.durable then Set(s, t, Accepted(pc.entries))
      else if !ok then Set(s, t, Leaving(Failed(PersistFailed)))
      else Set(s, t, Accepted(pc.entries)).(offers := s.offers + [(t, PayloadOf(pc.entries))])
    case _ => s
  }

  // ---------- under the write lock ----------

  function DoWrite(c: Config, s: State, t: Caller, a: Action): State
    requires t in s.pcs && t in c.requests
  {
    var pc, request := s.pcs[t], c.requests[t];
    match a
    case LockForWriting =>
      if s.writer.Some? || s.readers != {} then s
      else if pc.Accepted? then Set(s, t, Publishing(pc.entries, 0)).(writer := Some(t))
      else if pc.Admitted? && !request.Commit? then Set(s, t, Locked).(writer := Some(t))
      else s
    case Write =>
      if pc.Publishing? && pc.n < |pc.entries| && Has(s.store, pc.entries[pc.n].target) then
        var e := pc.entries[pc.n];
        Set(s, t, Publishing(pc.entries, pc.n + 1)).(store := Publish(s.store, e.target, e.setting))
      else if pc.Locked? && request.Reset? then
        var read := GetSetting(s.store, c.pluginID, request.id);
        if read.Err? then Set(s, t, Refused(read.error))
        else
          var target := ParseSettingID(c.pluginID, request.id).value;
          Set(s, t, Written(ResetValue(target)))
            .(store := Publish(s.store, target, read.value.(value := read.value.default_)))
      else if pc.Locked? && request.Registration? then
        var m := Register(request.category, request.settings);
        Set(s, t, Written(m)).(store := Apply(s.store, m))
      else s
    case UnlockWriting =>
      if pc.Publishing? && pc.n == |pc.entries| then
        Set(s, t, Leaving(Succeeded)).(writer := None, log := s.log + [(t, SetValues(ChangesOf(pc.entries)))])
      else if pc.Written? then
        Set(s, t, Leaving(Succeeded)).(writer := None, log := s.log + [(t, pc.m)])
      else if pc.Refused? then Set(s, t, Leaving(Failed(pc.error))).(writer := None)
      else s
    case _ => s
  }

  /** One step; a choice that is not enabled leaves the state as it is. */
  function Do(c: Config, s: State, t: Caller, a: Action): State {
    if t !in s.pcs || t !in c.requests then s
    else
      match a
      case Cancel => s.(cancelled := s.cancelled + {t})
      case Enter => DoGate(c, s, t, a)
      case GiveUp => DoGate(c, s, t, a)
      case Recheck => DoGate(c, s, t, a)
      case Leave => DoGate(c, s, t, a)
      case NormalizeOne(_) => DoCallbacks(c, s, t, a)
      case Poll => DoCallbacks(c, s, t, a)
      case Persist(_) => DoCallbacks(c, s, t, a)
      case LockForWriting => DoWrite(c, s, t, a)
      case Write => DoWrite(c, s, t, a)
      case UnlockWriting => DoWrite(c, s, t, a)
      case _ => DoRead(c, s, t, a)
  }

  function Execute(c: Config, schedule: seq<(Caller, Action)>): State {
    if schedule == [] then Init(c)
    else
      var (t, a) := schedule[|schedule| - 1];
      Do(c, Execute(c, schedule[..|schedule| - 1]), t, a)
  }

  // ---------- what the state means ----------

  /** The completed mutations applied one after another. */
  function Replay(initial: Store, log: seq<(Caller, Mutation)>): Store {
    if log == [] then initial else Apply(Replay(initial, log[..|log| - 1]), log[|log| - 1].1)
  }

  predicate HoldsGate(pc: PC) {
    !pc.Waiting? && !pc.Reading? && !pc.Done?
  }

  predicate HoldsWriteLock(pc: PC) {
    pc.Publishing? || pc.Locked? || pc.Written? || pc.Refused?
  }

  predicate HoldsReadLock(pc: PC) {
    pc.Preparing? || pc.Reading?
  }

  predicate HasSucceeded(pc: PC) {
    (pc.Leaving? || pc.Done?) && pc.outcome == Succeeded
  }

  /** A caller's program point says which locks it holds. */
  ghost predicate LocksOf(s: State, t: Caller)
    requires t in s.pcs
  {
    && (HoldsGate(s.pcs[t]) <==> s.gate == Some(t))
    && (HoldsWriteLock(s.pcs[t]) <==> s.writer == Some(t))
    && (HoldsReadLock(s.pcs[t]) <==> t in s.readers)
  }

  ghost predicate Locks(c: Config, s: State) {
    && s.pcs.Keys == c.requests.Keys
    && (forall t | t in s.pcs :: LocksOf(s, t))
    && (s.gate.Some? ==> s.gate.value in s.pcs)
    && (s.writer.Some? ==> s.writer.value in s.pcs && s.readers == {})
    && s.readers <= s.pcs.Keys
  }

  /** What a caller knows, measured against `base`, the store of the completed mutations. */
  ghost predicate Knows(c: Config, base: Store, log: seq<(Caller, Mutation)>, t: Caller, pc: PC)
    requires t in c.requests
  {
    var request := c.requests[t];
    match pc
    case Waiting => true
    case Entered => !request.Read?
    case Admitted => !request.Read?
    case Preparing(todo, read) => request.Commit? && KnowsRead(c, request.values, base, todo, read)
    case Normalizing(entries, n) =>
      request.Commit? && n <= |entries| && Covers(request.values, entries)
      && KnowsHalf(c, request.values, base, entries, n)
    case Offering(entries) => request.Commit? && KnowsAll(c, request.values, base, entries)
    case Accepted(entries) => request.Commit? && KnowsAll(c, request.values, base, entries)
    case Publishing(entries, n) => request.Commit? && n <= |entries| && KnowsAll(c, request.values, base, entries)
    case Locked => request.Reset? || request.Registration?
    case Written(m) => !request.Commit? && Performs(c, request, base, m)
    case Refused(_) => true
    case Leaving(o) => !o.Snapshot?
    case Reading(views) => request.Read? && forall i | 0 <= i < |views| :: views[i] == base
    case Done(o) => o.Snapshot? ==> SeenAtOnce(c, log, o.views)
  }

  ghost predicate KnowsRead(c: Config, values: map<string, Val>, base: Store, todo: set<string>, read: seq<Entry>) {
    && todo <= values.Keys && |read| + |todo| == |values|
    && (forall id | id in values && id !in todo :: HasID(read, id))
    && (forall i | 0 <= i < |read| :: Prepared(c.pluginID, values, base, read[i]))
  }

  ghost predicate KnowsHalf(c: Config, values: map<string, Val>, base: Store, entries: seq<Entry>, n: nat) {
    && (forall i | 0 <= i < |entries| && i < n :: Normalized(c.p, c.pluginID, values, base, entries[i]))
    && (forall i | n <= i < |entries| :: Prepared(c.pluginID, values, base, entries[i]))
  }

  ghost predicate KnowsAll(c: Config, values: map<string, Val>, base: Store, entries: seq<Entry>) {
    Covers(values, entries) && AllNormalized(c.p, c.pluginID, values, base, entries)
  }

  /** The mutation is the one the request stands for on this store. */
  ghost predicate Performs(c: Config, request: Request, base: Store, m: Mutation) {
    match request
    case Commit(values, _) => m.SetValues? && Requested(c.p, c.pluginID, values, base, m.changes)
    case Reset(id) => GetSetting(base, c.pluginID, id).Ok? && m == ResetValue(ParseSettingID(c.pluginID, id).value)
    case Registration(category, settings) => m == Register(category, settings)
    case Read => false
  }

  /** All views show one store that some prefix of the completed mutations made. */
  ghost predicate SeenAtOnce(c: Config, log: seq<(Caller, Mutation)>, views: seq<Store>) {
    exists k :: 0 <= k <= |log| && forall i | 0 <= i < |views| :: views[i] == Replay(c.initial, log[..k])
  }

  /** What the store holds, given who holds its write lock. */
  ghost predicate StoreIs(base: Store, store: Store, pc: PC) {
    match pc
    case Publishing(entries, n) => n <= |entries| && store == WithValues(base, ChangesOf(entries[..n]))
    case Written(m) => store == Apply(base, m)
    case _ => store == base
  }

  ghost predicate StoreOk(c: Config, s: State) {
    var base := Replay(c.initial, s.log);
    if s.writer.None? then s.store == base
    else s.writer.value in s.pcs && StoreIs(base, s.store, s.pcs[s.writer.value])
  }

  ghost predicate Logged(log: seq<(Caller, Mutation)>, t: Caller) {
    exists i :: 0 <= i < |log| && log[i].0 == t
  }

  /** Each caller that succeeded, and no other, is logged; once; with what it asked for. */
  ghost predicate LogOk(c: Config, s: State) {
    && (forall t | t in s.pcs :: HasSucceeded(s.pcs[t]) <==> Logged(s.log, t))
    && (forall i, j | 0 <= i < j < |s.log| :: s.log[i].0 != s.log[j].0)
    && (forall i | 0 <= i < |s.log| :: LogEntryOk(c, s.log, i))
  }

  ghost predicate LogEntryOk(c: Config, log: seq<(Caller, Mutation)>, i: nat)
    requires i < |log|
  {
    log[i].0 in c.requests && Performs(c, c.requests[log[i].0], Replay(c.initial, log[..i]), log[i].1)
  }

  // ---------- durable commits ----------

  predicate Durable(c: Config, t: Caller) {
    t in c.requests && c.requests[t].Commit? && c.requests[t].durable
  }

  /** The completed durable commits, in order. */
  function DurableOf(c: Config, log: seq<(Caller, Mutation)>): seq<(Caller, map<Target, Val>)> {
    if log == [] then []
    else
      var front := DurableOf(c, log[..|log| - 1]);
      var (t, m) := log[|log| - 1];
      if Durable(c, t) && m.SetValues? then front + [(t, m.changes)] else front
  }

  /** The commit that has been persisted but whose publication is not complete. */
  function Pending(c: Config, s: State): seq<(Caller, map<Target, Val>)> {
    if s.gate.Some? && s.gate.value in s.pcs && Durable(c, s.gate.value) then
      match s.pcs[s.gate.value]
      case Accepted(entries) => [(s.gate.value, ChangesOf(entries))]
      case Publishing(entries, _) => [(s.gate.value, ChangesOf(entries))]
      case _ => []
    else []
  }

  ghost predicate OffersOk(c: Config, offers: seq<(Caller, map<string, Val>)>, due: seq<(Caller, map<Target, Val>)>) {
    && |offers| == |due|
    && forall i | 0 <= i < |offers| :: OfferOk(c, offers[i], due[i])
  }

  /** The payload a caller's persist callback accepted is, key for key, the change it publishes. */
  ghost predicate OfferOk(c: Config, offer: (Caller, map<string, Val>), due: (Caller, map<Target, Val>)) {
    && offer.0 == due.0 && Durable(c, offer.0)
    && Persists(c.pluginID, c.requests[offer.0].values, due.1, offer.1)
    && (forall t | t in due.1 :: TargetRequested(c.pluginID, c.requests[offer.0].values, t))
  }

  ghost predicate Inv(c: Config, s: State) {
    && Locks(c, s)
    && (forall t | t in s.pcs :: Knows(c, Replay(c.initial, s.log), s.log, t, s.pcs[t]))
    && StoreOk(c, s)
    && LogOk(c, s)
    && OffersOk(c, s.offers, DurableOf(c, s.log) + Pending(c, s))
  }

  // ---------- every step keeps the invariant ----------

  lemma InitOk(c: Config)
    ensures Inv(c, Init(c))
  {}

  /** Moving one caller moves exactly the locks its two program points differ in. */
  ghost predicate LocksMoved(s: State, s': State, t: Caller, pc: PC, pc': PC) {
    && s'.gate == (if HoldsGate(pc') then Some(t) else if HoldsGate(pc) then None else s.gate)
    && s'.writer == (if HoldsWriteLock(pc') then Some(t) else if HoldsWriteLock(pc) then None else s.writer)
    && s'.readers == (if HoldsReadLock(pc') then s.readers + {t} else s.readers - {t})
    && (HoldsGate(pc') && !HoldsGate(pc) ==> s.gate.None?)
    && (HoldsWriteLock(pc') && !HoldsWriteLock(pc) ==> s.readers == {} && s.writer.None?)
    && (HoldsReadLock(pc') && !HoldsReadLock(pc) ==> s.writer.None?)
  }

  lemma LocksMove(c: Config, s: State, s': State, t: Caller, pc: PC, pc': PC)
    requires Locks(c, s) && t in s.pcs && s.pcs[t] == pc && s'.pcs == s.pcs[t := pc']
    requires LocksMoved(s, s', t, pc, pc')
    ensures Locks(c, s') && LocksOf(s, t) && LocksOf(s', t)
  {
    assert LocksOf(s, t);
    forall u | u in s'.pcs ensures LocksOf(s', u) {
      if u != t {
        assert LocksOf(s, u);
      }
    }
  }

  /** A step that completes no mutation. */
  ghost predicate Quiet(s: State, s': State, t: Caller) {
    && t in s.pcs && t in s'.pcs && s'.pcs == s.pcs[t := s'.pcs[t]]
    && s'.log == s.log
  }

  lemma QuietStepOk(c: Config, s: State, s': State, t: Caller)
    requires Inv(c, s) && Quiet(s, s', t) && Locks(c, s')
    requires Knows(c, Replay(c.initial, s.log), s.log, t, s'.pcs[t])
    requires HasSucceeded(s'.pcs[t]) == HasSucceeded(s.pcs[t])
    requires StoreOk(c, s') && OffersOk(c, s'.offers, DurableOf(c, s.log) + Pending(c, s'))
    ensures Inv(c, s')
  {
    hide Knows, StoreOk, OffersOk, HasSucceeded, Pending, LogEntryOk, Replay, DurableOf;
  }

  /** Same locks, same write-lock holder: the store still means the same. */
  lemma StoreStays(c: Config, s: State, s': State, t: Caller)
    requires StoreOk(c, s) && Locks(c, s) && Locks(c, s') && Quiet(s, s', t) && s'.store == s.store
    requires LocksOf(s, t) && LocksOf(s', t)
    requires HoldsWriteLock(s.pcs[t]) ==> s.store == Replay(c.initial, s.log)
    requires var base := Replay(c.initial, s.log);
      HoldsWriteLock(s'.pcs[t]) ==> StoreIs(base, base, s'.pcs[t])
    requires !HoldsWriteLock(s.pcs[t]) && !HoldsWriteLock(s'.pcs[t]) ==> s'.writer == s.writer
    requires !HoldsWriteLock(s.pcs[t]) && HoldsWriteLock(s'.pcs[t]) ==> s.writer.None?
    ensures StoreOk(c, s')
  {
    hide Replay;
  }

  lemma InvParts(c: Config, s: State)
    requires Inv(c, s)
    ensures Locks(c, s) && StoreOk(c, s) && LogOk(c, s)
    ensures OffersOk(c, s.offers, DurableOf(c, s.log) + Pending(c, s))
    ensures forall t | t in s.pcs :: Knows(c, Replay(c.initial, s.log), s.log, t, s.pcs[t])
  {
    hide Knows, StoreOk, LogOk, OffersOk;
  }

  predicate MayBePending(pc: PC) {
    pc.Accepted? || pc.Publishing?
  }

  lemma PendingStays(c: Config, s: State, s': State, t: Caller)
    requires Locks(c, s) && Locks(c, s') && Quiet(s, s', t)
    requires (!MayBePending(s.pcs[t]) && !MayBePending(s'.pcs[t])) || !Durable(c, t)
          || (s.pcs[t].Accepted? && s'.pcs[t].Publishing? && s'.pcs[t].entries == s.pcs[t].entries)
    requires s'.gate == s.gate || s'.gate == Some(t) || s.gate == Some(t)
    ensures Pending(c, s') == Pending(c, s)
  {}

  /** The common case: a caller moves between points at which its store knowledge is `base` or nothing. */
  lemma MoveOk(c: Config, s: State, s': State, t: Caller, pc: PC, pc': PC)
    requires Inv(c, s) && t in s.pcs && s.pcs[t] == pc && s'.pcs == s.pcs[t := pc']
    requires s'.store == s.store && s'.log == s.log && s'.offers == s.offers && s'.cancelled == s.cancelled
    requires LocksMoved(s, s', t, pc, pc')
    requires Knows(c, Replay(c.initial, s.log), s.log, t, pc')
    requires HasSucceeded(pc') == HasSucceeded(pc)
    requires HoldsWriteLock(pc) ==> s.store == Replay(c.initial, s.log)
    requires var base := Replay(c.initial, s.log); HoldsWriteLock(pc') ==> StoreIs(base, base, pc')
    requires (!MayBePending(pc) && !MayBePending(pc')) || !Durable(c, t)
          || (pc.Accepted? && pc'.Publishing? && pc'.entries == pc.entries)
    ensures Inv(c, s')
  {
    hide Inv, Locks, Knows, Replay, LogOk, OffersOk, DurableOf, HasSucceeded, StoreIs, Pending, StoreOk;
    InvParts(c, s);
    LocksMove(c, s, s', t, pc, pc');
    StoreStays(c, s, s', t);
    PendingStays(c, s, s', t);
    QuietStepOk(c, s, s', t);
  }

  lemma GateStepOk(c: Config, s: State, t: Caller, a: Action)
    requires Inv(c, s) && t in s.pcs && t in c.requests
    ensures Inv(c, DoGate(c, s, t, a))
  {
    hide Inv, Replay, KnowsRead, KnowsHalf, KnowsAll, Performs, SeenAtOnce;
    var s', pc := DoGate(c, s, t, a), s.pcs[t];
    KnowsAt(c, s, t);
    if s' == s {
    } else if a.Enter? {
      MoveOk(c, s, s', t, pc, Entered);
    } else if a.GiveUp? {
      MoveOk(c, s, s', t, pc, Done(Failed(Cancelled)));
    } else if a.Leave? {
      MoveOk(c, s, s', t, pc, Done(pc.outcome));
    } else if c.requests[t].Commit? && t in s.cancelled {
      MoveOk(c, s, s', t, pc, Done(Failed(Cancelled)));
    } else {
      MoveOk(c, s, s', t, pc, Admitted);
    }
  }

  lemma KnowsAt(c: Config, s: State, t: Caller)
    requires Inv(c, s) && t in s.pcs
    ensures t in c.requests && Knows(c, Replay(c.initial, s.log), s.log, t, s.pcs[t])
    ensures LocksOf(s, t)
  {
    hide Knows, Replay;
  }

  lemma ReaderSeesBase(c: Config, s: State, t: Caller)
    requires Inv(c, s) && t in s.pcs && HoldsReadLock(s.pcs[t])
    ensures s.store == Replay(c.initial, s.log)
  {
    hide Knows, Replay, LogOk, OffersOk;
    assert LocksOf(s, t);
  }

  lemma ReadsOneMore(c: Config, values: map<string, Val>, base: Store, todo: set<string>, read: seq<Entry>, e: Entry)
    requires KnowsRead(c, values, base, todo, read) && e.id in todo && Prepared(c.pluginID, values, base, e)
    ensures KnowsRead(c, values, base, todo - {e.id}, read + [e])
  {
    hide Prepared, HasID;
    forall id | id in values && id !in todo - {e.id} ensures HasID(read + [e], id) {
      HasIDGrows(read, e, id);
    }
  }

  lemma ReadIsPrepared(c: Config, values: map<string, Val>, base: Store, id: string)
    requires id in values && GetSetting(base, c.pluginID, id).Ok?
    ensures ParseSettingID(c.pluginID, id).Some?
    ensures Prepared(c.pluginID, values, base,
                     Entry(id, ParseSettingID(c.pluginID, id).value, GetSetting(base, c.pluginID, id).value))
  {
    hide ParseSettingID;
  }

  lemma AllAreRead(c: Config, values: map<string, Val>, base: Store, read: seq<Entry>)
    requires KnowsRead(c, values, base, {}, read)
    ensures Covers(values, read) && KnowsHalf(c, values, base, read, 0)
  {}

  lemma SeenNow(c: Config, log: seq<(Caller, Mutation)>, views: seq<Store>)
    requires forall i | 0 <= i < |views| :: views[i] == Replay(c.initial, log)
    ensures SeenAtOnce(c, log, views)
  {
    assert log[..|log|] == log;
  }

  lemma ReadStepOk(c: Config, s: State, t: Caller, a: Action)
    requires Inv(c, s) && t in s.pcs && t in c.requests
    ensures Inv(c, DoRead(c, s, t, a))
  {
    hide Inv, Replay, KnowsRead, KnowsHalf, KnowsAll, Performs, SeenAtOnce, GetSetting, ParseSettingID, Covers;
    var s', pc := DoRead(c, s, t, a), s.pcs[t];
    ghost var base := Replay(c.initial, s.log);
    KnowsAt(c, s, t);
    if s' == s {
    } else if a.LockForReading? && pc.Waiting? {
      MoveOk(c, s, s', t, pc, Reading([]));
    } else if a.LockForReading? {
      NothingIsRead(c, c.requests[t].values, base);
      MoveOk(c, s, s', t, pc, Preparing(c.requests[t].values.Keys, []));
    } else {
      ReaderSeesBase(c, s, t);
      match a
      case ReadOne(id) =>
        ReadOneOk(c, s, t, id);
      case Observe =>
        MoveOk(c, s, s', t, pc, Reading(pc.views + [s.store]));
      case UnlockReading =>
        if pc.Reading? {
          SeenNow(c, s.log, pc.views);
          MoveOk(c, s, s', t, pc, Done(Snapshot(pc.views)));
        } else {
          AllAreRead(c, c.requests[t].values, base, pc.read);
          MoveOk(c, s, s', t, pc, Normalizing(pc.read, 0));
        }
      case _ =>
    }
  }

  lemma ReadOneOk(c: Config, s: State, t: Caller, id: string)
    requires Inv(c, s) && t in s.pcs && t in c.requests
    ensures Inv(c, DoRead(c, s, t, ReadOne(id)))
  {
    hide Inv, Replay, KnowsRead, KnowsHalf, KnowsAll, Performs, SeenAtOnce, GetSetting, ParseSettingID, Covers;
    var s', pc := DoRead(c, s, t, ReadOne(id)), s.pcs[t];
    ghost var base := Replay(c.initial, s.log);
    if pc.Preparing? && id in pc.todo {
      KnowsAt(c, s, t);
      ReaderSeesBase(c, s, t);
      var read := GetSetting(s.store, c.pluginID, id);
      if read.Err? {
        MoveOk(c, s, s', t, pc, Leaving(Failed(read.error)));
      } else {
        InTodo(c, c.requests[t].values, base, pc.todo, pc.read, id);
        ReadIsPrepared(c, c.requests[t].values, base, id);
        var e := Entry(id, ParseSettingID(c.pluginID, id).value, read.value);
        ReadsOneMore(c, c.requests[t].values, base, pc.todo, pc.read, e);
        MoveOk(c, s, s', t, pc, Preparing(pc.todo - {id}, pc.read + [e]));
      }
    }
  }

  lemma NothingIsRead(c: Config, values: map<string, Val>, base: Store)
    ensures KnowsRead(c, values, base, values.Keys, [])
  {}

  lemma InTodo(c: Config, values: map<string, Val>, base: Store, todo: set<string>, read: seq<Entry>, id: string)
    requires KnowsRead(c, values, base, todo, read) && id in todo
    ensures id in values
  {}

  lemma NormalizesOneMore(c: Config, values: map<string, Val>, base: Store, entries: seq<Entry>, n: nat, v: Val)
    requires KnowsHalf(c, values, base, entries, n) && n < |entries| && Covers(values, entries)
    requires entries[n].id in values
    requires NormalizeValue(c.p, entries[n].setting.Form(), values[entries[n].id]) == Some(v)
    ensures var e := entries[n];
      var entries' := entries[n := e.(setting := e.setting.(value := v))];
      KnowsHalf(c, values, base, entries', n + 1) && Covers(values, entries')
  {
    hide NormalizeValue;
    var e := entries[n];
    var entries' := entries[n := e.(setting := e.setting.(value := v))];
    PreparedNormalizes(c.p, c.pluginID, values, base, e, v);
    CoversByIDs(values, entries, entries');
  }

  lemma AllAreNormalized(c: Config, values: map<string, Val>, base: Store, entries: seq<Entry>)
    requires KnowsHalf(c, values, base, entries, |entries|) && Covers(values, entries)
    ensures KnowsAll(c, values, base, entries)
  {}

  lemma NormalizeOneOk(c: Config, s: State, t: Caller, valid: bool)
    requires Inv(c, s) && t in s.pcs && t in c.requests
    requires s.pcs[t].Normalizing? && DoCallbacks(c, s, t, NormalizeOne(valid)) != s
    ensures Inv(c, DoCallbacks(c, s, t, NormalizeOne(valid)))
  {
    hide Inv, Replay, KnowsHalf, NormalizeValue, Covers;
    var s', pc := DoCallbacks(c, s, t, NormalizeOne(valid)), s.pcs[t];
    KnowsAt(c, s, t);
    var e := pc.entries[pc.n];
    var v := NormalizeValue(c.p, e.setting.Form(), c.requests[t].values[e.id]);
    if v.None? {
      MoveOk(c, s, s', t, pc, Leaving(Failed(TypeMismatch)));
    } else if !valid {
      MoveOk(c, s, s', t, pc, Leaving(Failed(Rejected)));
    } else {
      NormalizesOneMore(c, c.requests[t].values, Replay(c.initial, s.log), pc.entries, pc.n, v.value);
      MoveOk(c, s, s', t, pc, s'.pcs[t]);
    }
  }

  lemma CallbackStepOk(c: Config, s: State, t: Caller, a: Action)
    requires Inv(c, s) && t in s.pcs && t in c.requests
    ensures Inv(c, DoCallbacks(c, s, t, a))
  {
    hide Inv, Replay, KnowsRead, KnowsHalf, KnowsAll, Performs, SeenAtOnce, NormalizeValue, Covers;
    var s', pc := DoCallbacks(c, s, t, a), s.pcs[t];
    ghost var base := Replay(c.initial, s.log);
    KnowsAt(c, s, t);
    if s' != s {
      match a
      case NormalizeOne(valid) =>
        NormalizeOneOk(c, s, t, valid);
      case Poll =>
        if t in s.cancelled {
          MoveOk(c, s, s', t, pc, Leaving(Failed(Cancelled)));
        } else {
          AllAreNormalized(c, c.requests[t].values, base, pc.entries);
          MoveOk(c, s, s', t, pc, Offering(pc.entries));
        }
      case Persist(ok) =>
        if !c.requests[t].durable {
          MoveOk(c, s, s', t, pc, Accepted(pc.entries));
        } else if !ok {
          MoveOk(c, s, s', t, pc, Leaving(Failed(PersistFailed)));
        } else {
          OfferStepOk(c, s, t);
        }
      case _ =>
    }
  }

  /** The payload that persist accepts becomes due, key for key the change to be published. */
  lemma OfferStepOk(c: Config, s: State, t: Caller)
    requires Inv(c, s) && t in s.pcs && Durable(c, t) && s.pcs[t].Offering?
    ensures Inv(c, Set(s, t, Accepted(s.pcs[t].entries)).(offers := s.offers + [(t, PayloadOf(s.pcs[t].entries))]))
  {
    hide Inv, Replay, KnowsAll, StoreOk, LogOk, OffersOk, OfferOk, DurableOf, PayloadOf, ChangesOf, Locks;
    var pc := s.pcs[t];
    var entries, pc' := pc.entries, Accepted(pc.entries);
    var s' := Set(s, t, pc').(offers := s.offers + [(t, PayloadOf(entries))]);
    InvParts(c, s);
    KnowsAt(c, s, t);
    LocksMove(c, s, s', t, pc, pc');
    StoreStays(c, s, s', t);
    OfferIsOk(c, Replay(c.initial, s.log), t, entries);
    DueGrows(c, s.offers, DurableOf(c, s.log), (t, PayloadOf(entries)), (t, ChangesOf(entries)));
    assert Pending(c, s) == [] && Pending(c, s') == [(t, ChangesOf(entries))];
    QuietStepOk(c, s, s', t);
  }

  lemma OfferIsOk(c: Config, base: Store, t: Caller, entries: seq<Entry>)
    requires Durable(c, t) && KnowsAll(c, c.requests[t].values, base, entries)
    ensures OfferOk(c, (t, PayloadOf(entries)), (t, ChangesOf(entries)))
  {
    hide AllNormalized, Covers, IDMet, ChangesOf, PayloadOf;
    RequestIsMet(c.p, c.pluginID, c.requests[t].values, base, entries);
  }

  lemma DueGrows(
    c: Config, offers: seq<(Caller, map<string, Val>)>, due: seq<(Caller, map<Target, Val>)>,
    offer: (Caller, map<string, Val>), change: (Caller, map<Target, Val>))
    requires OffersOk(c, offers, due + []) && OfferOk(c, offer, change)
    ensures OffersOk(c, offers + [offer], due + [change])
  {
    hide OfferOk;
    assert due + [] == due;
  }

  /** The holder of the write lock rewrites the store. */
  lemma WriterStepOk(c: Config, s: State, s': State, t: Caller, pc: PC, pc': PC)
    requires Inv(c, s) && t in s.pcs && s.pcs[t] == pc && HoldsWriteLock(pc) && HoldsWriteLock(pc')
    requires s' == Set(s, t, pc').(store := s'.store)
    requires Knows(c, Replay(c.initial, s.log), s.log, t, pc')
    requires StoreIs(Replay(c.initial, s.log), s'.store, pc')
    requires if pc.Publishing? then pc'.Publishing? && pc'.entries == pc.entries else !pc'.Publishing?
    ensures Inv(c, s')
  {
    hide Inv, Knows, Replay, LogOk, OffersOk, DurableOf, StoreIs, StoreOk, Locks;
    InvParts(c, s);
    KnowsAt(c, s, t);
    LocksMove(c, s, s', t, pc, pc');
    StoreOfWriter(c, s', t);
    assert Pending(c, s') == Pending(c, s);
    QuietStepOk(c, s, s', t);
  }

  lemma StoreOfWriter(c: Config, s: State, t: Caller)
    requires t in s.pcs && s.writer == Some(t) && StoreIs(Replay(c.initial, s.log), s.store, s.pcs[t])
    ensures StoreOk(c, s)
  {}

  lemma WriterHolds(c: Config, s: State, t: Caller)
    requires Inv(c, s) && t in s.pcs && HoldsWriteLock(s.pcs[t])
    ensures StoreIs(Replay(c.initial, s.log), s.store, s.pcs[t])
    ensures s.writer == Some(t) && s.gate == Some(t) && s.readers == {}
  {
    hide Knows, Replay, StoreIs, LogOk, OffersOk;
    assert LocksOf(s, t);
  }

  /** One whole record is overwritten; against the store of the completed mutations, only its value changes. */
  lemma PublishStepOk(c: Config, s: State, t: Caller)
    requires Inv(c, s) && t in s.pcs && t in c.requests
    requires s.pcs[t].Publishing? && s.pcs[t].n < |s.pcs[t].entries|
    ensures Has(s.store, s.pcs[t].entries[s.pcs[t].n].target)
    ensures Inv(c, DoWrite(c, s, t, Write))
  {
    hide Inv, Replay, WithValues, NormalizeValue, ParseSettingID, Publish, Covers;
    var pc := s.pcs[t];
    var base, e := Replay(c.initial, s.log), pc.entries[pc.n];
    KnowsAt(c, s, t);
    WriterHolds(c, s, t);
    assert Normalized(c.p, c.pluginID, c.requests[t].values, base, e);
    PublishSetsOneValue(base, ChangesOf(pc.entries[..pc.n]), e.target, e.setting.value);
    assert pc.entries[..pc.n + 1][..pc.n] == pc.entries[..pc.n];
    var s' := DoWrite(c, s, t, Write);
    WriterStepOk(c, s, s', t, pc, Publishing(pc.entries, pc.n + 1));
  }

  lemma MutateStepOk(c: Config, s: State, t: Caller)
    requires Inv(c, s) && t in s.pcs && t in c.requests && s.pcs[t].Locked?
    ensures Inv(c, DoWrite(c, s, t, Write))
  {
    hide Inv, Replay, WithValues, ParseSettingID, Publish;
    var s', pc := DoWrite(c, s, t, Write), s.pcs[t];
    var base := Replay(c.initial, s.log);
    KnowsAt(c, s, t);
    WriterHolds(c, s, t);
    if c.requests[t].Reset? {
      var read := GetSetting(s.store, c.pluginID, c.requests[t].id);
      if read.Ok? {
        var target := ParseSettingID(c.pluginID, c.requests[t].id).value;
        NoChanges(base);
        PublishSetsOneValue(base, map[], target, read.value.default_);
      }
    }
    WriterStepOk(c, s, s', t, pc, s'.pcs[t]);
  }

  /** Releasing the write lock completes a mutation; nobody else was looking. */
  lemma CompletionOk(c: Config, s: State, t: Caller, m: Mutation)
    requires Inv(c, s) && t in s.pcs && t in c.requests && HoldsWriteLock(s.pcs[t])
    requires Performs(c, c.requests[t], Replay(c.initial, s.log), m)
    requires s.store == Apply(Replay(c.initial, s.log), m)
    requires Durable(c, t) ==> m.SetValues? && Pending(c, s) == [(t, m.changes)]
    requires !Durable(c, t) ==> Pending(c, s) == []
    ensures Inv(c, Set(s, t, Leaving(Succeeded)).(writer := None, log := s.log + [(t, m)]))
  {
    hide Inv, Knows, Replay, Apply, Performs, LogOk, OffersOk, DurableOf, StoreOk, Locks, SeenAtOnce, Pending;
    var s' := Set(s, t, Leaving(Succeeded)).(writer := None, log := s.log + [(t, m)]);
    InvParts(c, s);
    WriterHolds(c, s, t);
    LocksMove(c, s, s', t, s.pcs[t], Leaving(Succeeded));
    ReplayGrows(c, s.log, t, m);
    forall u | u in s'.pcs ensures Knows(c, Replay(c.initial, s'.log), s'.log, u, s'.pcs[u]) {
      KnowsSurvives(c, s, t, m, u);
    }
    StoreAfterUnlock(c, s');
    LogGrows(c, s, t, m);
    assert Pending(c, s') == [] by { PendingAfterUnlock(c, s', t); }
    DurableGrows(c, s.log, t, m);
    InvFromParts(c, s');
  }

  lemma InvFromParts(c: Config, s: State)
    requires Locks(c, s) && StoreOk(c, s) && LogOk(c, s)
    requires forall t | t in s.pcs :: t in c.requests && Knows(c, Replay(c.initial, s.log), s.log, t, s.pcs[t])
    requires OffersOk(c, s.offers, DurableOf(c, s.log)) && Pending(c, s) == []
    ensures Inv(c, s)
  {
    hide Knows, StoreOk, LogOk, OffersOk, Replay, DurableOf, Pending;
    assert DurableOf(c, s.log) + [] == DurableOf(c, s.log);
  }

  lemma ReplayGrows(c: Config, log: seq<(Caller, Mutation)>, t: Caller, m: Mutation)
    ensures Replay(c.initial, log + [(t, m)]) == Apply(Replay(c.initial, log), m)
  {
    hide Apply;
    assert (log + [(t, m)])[..|log|] == log;
  }

  lemma StoreAfterUnlock(c: Config, s: State)
    requires s.writer.None? && s.store == Replay(c.initial, s.log)
    ensures StoreOk(c, s)
  {}

  lemma PendingAfterUnlock(c: Config, s: State, t: Caller)
    requires s.gate == Some(t) && t in s.pcs && s.pcs[t].Leaving?
    ensures Pending(c, s) == []
  {}

  /** While t writes, every other caller is waiting or done. */
  lemma KnowsSurvives(c: Config, s: State, t: Caller, m: Mutation, u: Caller)
    requires Inv(c, s) && t in s.pcs && HoldsWriteLock(s.pcs[t]) && u in s.pcs
    ensures u in c.requests
    ensures var log' := s.log + [(t, m)];
      Knows(c, Replay(c.initial, log'), log', u, if u == t then Leaving(Succeeded) else s.pcs[u])
  {
    hide Inv, Replay, SeenAtOnce;
    KnowsAt(c, s, u);
    WriterHolds(c, s, t);
    if u != t && s.pcs[u].Done? && s.pcs[u].outcome.Snapshot? {
      StillSeen(c, s.log, (t, m), s.pcs[u].outcome.views);
    }
  }

  lemma StillSeen(c: Config, log: seq<(Caller, Mutation)>, last: (Caller, Mutation), views: seq<Store>)
    requires SeenAtOnce(c, log, views)
    ensures SeenAtOnce(c, log + [last], views)
  {
    hide Replay;
    var k :| 0 <= k <= |log| && forall i | 0 <= i < |views| :: views[i] == Replay(c.initial, log[..k]);
    assert (log + [last])[..k] == log[..k];
  }

  lemma LogGrows(c: Config, s: State, t: Caller, m: Mutation)
    requires LogOk(c, s) && t in s.pcs && t in c.requests && !HasSucceeded(s.pcs[t])
    requires Performs(c, c.requests[t], Replay(c.initial, s.log), m)
    ensures LogOk(c, Set(s, t, Leaving(Succeeded)).(writer := None, log := s.log + [(t, m)]))
  {
    hide Performs, Replay;
    var s' := Set(s, t, Leaving(Succeeded)).(writer := None, log := s.log + [(t, m)]);
    assert !Logged(s.log, t);
    assert s'.log[|s.log|] == (t, m) && s'.log[..|s.log|] == s.log;
    forall i | 0 <= i < |s'.log| ensures LogEntryOk(c, s'.log, i) {
      if i < |s.log| {
        assert LogEntryOk(c, s.log, i);
        assert s'.log[..i] == s.log[..i] && s'.log[i] == s.log[i];
      }
    }
    forall u | u in s'.pcs ensures HasSucceeded(s'.pcs[u]) <==> Logged(s'.log, u) {
      if Logged(s.log, u) {
        var i :| 0 <= i < |s.log| && s.log[i].0 == u;
        assert s'.log[i].0 == u;
      }
    }
  }

  lemma DurableGrows(c: Config, log: seq<(Caller, Mutation)>, t: Caller, m: Mutation)
    ensures DurableOf(c, log + [(t, m)])
         == DurableOf(c, log) + if Durable(c, t) && m.SetValues? then [(t, m.changes)] else []
  {
    assert (log + [(t, m)])[..|log|] == log;
  }

  lemma UnlockStepOk(c: Config, s: State, t: Caller)
    requires Inv(c, s) && t in s.pcs && t in c.requests
    ensures Inv(c, DoWrite(c, s, t, UnlockWriting))
  {
    hide Inv, Replay, Apply, WithValues, Requested, GetSetting, ParseSettingID, Covers, AllNormalized, ChangesOf;
    var s', pc := DoWrite(c, s, t, UnlockWriting), s.pcs[t];
    KnowsAt(c, s, t);
    if s' != s {
      WriterHolds(c, s, t);
      if pc.Publishing? {
        assert pc.entries[..pc.n] == pc.entries;
        PublicationPerforms(c, c.requests[t].values, Replay(c.initial, s.log), pc.entries);
        CompletionOk(c, s, t, SetValues(ChangesOf(pc.entries)));
      } else if pc.Written? {
        CompletionOk(c, s, t, pc.m);
      } else {
        MoveOk(c, s, s', t, pc, Leaving(Failed(pc.error)));
      }
    }
  }

  lemma PublicationPerforms(c: Config, values: map<string, Val>, base: Store, entries: seq<Entry>)
    requires KnowsAll(c, values, base, entries)
    ensures Requested(c.p, c.pluginID, values, base, ChangesOf(entries))
    ensures Apply(base, SetValues(ChangesOf(entries))) == WithValues(base, ChangesOf(entries))
  {
    hide AllNormalized, Covers, WithValues, Requested;
    RequestIsMet(c.p, c.pluginID, values, base, entries);
  }

  lemma WriteStepOk(c: Config, s: State, t: Caller, a: Action)
    requires Inv(c, s) && t in s.pcs && t in c.requests
    ensures Inv(c, DoWrite(c, s, t, a))
  {
    hide Inv, Replay, WithValues, Apply, GetSetting, Publish, KnowsAll;
    var s', pc := DoWrite(c, s, t, a), s.pcs[t];
    if s' != s {
      match a
      case LockForWriting =>
        KnowsAt(c, s, t);
        if pc.Accepted? {
          NoChanges(Replay(c.initial, s.log));
          MoveOk(c, s, s', t, pc, Publishing(pc.entries, 0));
        } else {
          MoveOk(c, s, s', t, pc, Locked);
        }
      case Write =>
        if pc.Publishing? {
          PublishStepOk(c, s, t);
        } else {
          MutateStepOk(c, s, t);
        }
      case UnlockWriting =>
        UnlockStepOk(c, s, t);
      case _ =>
    }
  }

  lemma StepOk(c: Config, s: State, t: Caller, a: Action)
    requires Inv(c, s)
    ensures Inv(c, Do(c, s, t, a))
  {
    hide DoGate, DoRead, DoCallbacks, DoWrite, Inv;
    if t in s.pcs && t in c.requests {
      GateStepOk(c, s, t, a);
      ReadStepOk(c, s, t, a);
      CallbackStepOk(c, s, t, a);
      WriteStepOk(c, s, t, a);
      CancelOk(c, s, t);
    }
  }

  lemma CancelOk(c: Config, s: State, t: Caller)
    requires Inv(c, s)
    ensures Inv(c, s.(cancelled := s.cancelled + {t}))
  {
    hide Knows, Replay, OffersOk, DurableOf, LogEntryOk, StoreIs;
    assert forall u | u in s.pcs :: LocksOf(s, u);
  }

  /** The invariant holds after every schedule: every interleaving of every number of callers. */
  lemma {:induction false} ScheduleOk(c: Config, schedule: seq<(Caller, Action)>)
    ensures Inv(c, Execute(c, schedule))
  {
    hide Inv, Do;
    if schedule == [] {
      InitOk(c);
    } else {
      ScheduleOk(c, schedule[..|schedule| - 1]);
      var (t, a) := schedule[|schedule| - 1];
      StepOk(c, Execute(c, schedule[..|schedule| - 1]), t, a);
    }
  }

  // ---------- what every interleaving guarantees ----------

  // ---------- the order of the gate ----------

  function CallersOf(log: seq<(Caller, Mutation)>): seq<Caller> {
    if log == [] then [] else CallersOf(log[..|log| - 1]) + [log[|log| - 1].0]
  }

  /** Those of the callers that completed a mutation, in the same order. */
  ghost function CompletedOf(callers: seq<Caller>, log: seq<(Caller, Mutation)>): seq<Caller> {
    if callers == [] then []
    else
      var front, t := CompletedOf(callers[..|callers| - 1], log), callers[|callers| - 1];
      if Logged(log, t) then front + [t] else front
  }

  /** Nobody takes the gate twice, who holds it took it last, and mutations complete in its order. */
  ghost predicate InGateOrder(s: State) {
    && (forall t | t in s.entered :: t in s.pcs && !s.pcs[t].Waiting?)
    && (forall i, j | 0 <= i < j < |s.entered| :: s.entered[i] != s.entered[j])
    && (s.gate.Some? ==> s.entered != [] && s.entered[|s.entered| - 1] == s.gate.value)
    && CallersOf(s.log) == CompletedOf(s.entered, s.log)
  }

  lemma LoggedGrows(log: seq<(Caller, Mutation)>, last: (Caller, Mutation), t: Caller)
    ensures Logged(log + [last], t) <==> Logged(log, t) || t == last.0
  {
    var all := log + [last];
    assert all[|log|] == last && forall i | 0 <= i < |log| :: all[i] == log[i];
  }

  lemma {:induction false} OthersCompleteNothing(callers: seq<Caller>, log: seq<(Caller, Mutation)>, last: (Caller, Mutation))
    requires last.0 !in callers
    ensures CompletedOf(callers, log + [last]) == CompletedOf(callers, log)
  {
    if callers != [] {
      OthersCompleteNothing(callers[..|callers| - 1], log, last);
      LoggedGrows(log, last, callers[|callers| - 1]);
    }
  }

  lemma GateTaken(s: State, s': State, t: Caller)
    requires InGateOrder(s) && t in s.pcs && s.pcs[t].Waiting? && !Logged(s.log, t)
    requires s'.pcs == s.pcs[t := Entered] && s'.entered == s.entered + [t] && s'.gate == Some(t) && s'.log == s.log
    ensures InGateOrder(s')
  {
    assert s'.entered[..|s'.entered| - 1] == s.entered;
  }

  /** A step that neither takes the gate nor completes a mutation. */
  ghost predicate KeepsOrder(s: State, s': State, t: Caller) {
    && s'.entered == s.entered && s'.log == s.log && (s'.gate == s.gate || s'.gate.None?)
    && (s'.pcs == s.pcs || (t in s.pcs && t in s'.pcs && s'.pcs == s.pcs[t := s'.pcs[t]] && !s'.pcs[t].Waiting?))
  }

  lemma OrderKept(s: State, s': State, t: Caller)
    requires InGateOrder(s) && KeepsOrder(s, s', t)
    ensures InGateOrder(s')
  {}

  lemma ReadingKeepsOrder(c: Config, s: State, t: Caller, a: Action)
    requires t in s.pcs && t in c.requests
    ensures KeepsOrder(s, DoRead(c, s, t, a), t)
  {
    hide GetSetting, ParseSettingID;
  }

  lemma CallbacksKeepOrder(c: Config, s: State, t: Caller, a: Action)
    requires t in s.pcs && t in c.requests
    ensures KeepsOrder(s, DoCallbacks(c, s, t, a), t)
  {
    hide NormalizeValue, PayloadOf;
  }

  lemma WritingKeepsOrder(c: Config, s: State, t: Caller, a: Action)
    requires t in s.pcs && t in c.requests && !a.UnlockWriting?
    ensures KeepsOrder(s, DoWrite(c, s, t, a), t)
  {
    hide GetSetting, ParseSettingID, Publish, Apply, Has, ChangesOf;
  }

  lemma HolderCompletes(s: State, s': State, t: Caller, m: Mutation)
    requires InGateOrder(s) && s.gate == Some(t) && !Logged(s.log, t) && s'.gate == s.gate
    requires t in s'.pcs && s'.pcs == s.pcs[t := s'.pcs[t]] && !s'.pcs[t].Waiting?
    requires s'.entered == s.entered && s'.log == s.log + [(t, m)]
    ensures InGateOrder(s')
  {
    var front := s.entered[..|s.entered| - 1];
    assert t !in front by {
      assert forall i | 0 <= i < |front| :: front[i] == s.entered[i];
    }
    OthersCompleteNothing(front, s.log, (t, m));
    LoggedGrows(s.log, (t, m), t);
    assert s'.log[..|s.log|] == s.log;
  }

  lemma GateInGateOrder(c: Config, s: State, t: Caller, a: Action)
    requires InGateOrder(s) && t in s.pcs && t in c.requests && (s.pcs[t].Waiting? ==> !Logged(s.log, t))
    ensures InGateOrder(DoGate(c, s, t, a))
  {
    hide InGateOrder, Logged;
    var s' := DoGate(c, s, t, a);
    if s'.entered != s.entered {
      GateTaken(s, s', t);
    } else {
      OrderKept(s, s', t);
    }
  }

  lemma UnlockInGateOrder(c: Config, s: State, t: Caller)
    requires InGateOrder(s) && t in s.pcs && t in c.requests
    requires HoldsWriteLock(s.pcs[t]) ==> s.gate == Some(t) && !Logged(s.log, t)
    ensures InGateOrder(DoWrite(c, s, t, UnlockWriting))
  {
    hide InGateOrder, Logged, ChangesOf;
    var s' := DoWrite(c, s, t, UnlockWriting);
    if s'.log != s.log {
      HolderCompletes(s, s', t, s'.log[|s.log|].1);
    } else {
      OrderKept(s, s', t);
    }
  }

  lemma NotLoggedYet(c: Config, s: State, t: Caller)
    requires Inv(c, s) && t in s.pcs
    ensures t in c.requests
    ensures s.pcs[t].Waiting? ==> !Logged(s.log, t)
    ensures HoldsWriteLock(s.pcs[t]) ==> s.gate == Some(t) && !Logged(s.log, t)
  {
    hide Knows, StoreOk, OffersOk, LogEntryOk;
    assert HasSucceeded(s.pcs[t]) <==> Logged(s.log, t);
    assert LocksOf(s, t);
  }

  lemma StepInGateOrder(c: Config, s: State, t: Caller, a: Action)
    requires Inv(c, s) && InGateOrder(s)
    ensures InGateOrder(Do(c, s, t, a))
  {
    hide Inv, InGateOrder, Logged, HoldsWriteLock, DoGate, DoRead, DoCallbacks, DoWrite;
    if t in s.pcs && t in c.requests {
      NotLoggedYet(c, s, t);
      GateInGateOrder(c, s, t, a);
      ReadingKeepsOrder(c, s, t, a);
      CallbacksKeepOrder(c, s, t, a);
      OrderKept(s, DoRead(c, s, t, a), t);
      OrderKept(s, DoCallbacks(c, s, t, a), t);
      if a.UnlockWriting? {
        UnlockInGateOrder(c, s, t);
      } else {
        WritingKeepsOrder(c, s, t, a);
        OrderKept(s, DoWrite(c, s, t, a), t);
      }
      if a.Cancel? {
        OrderKept(s, Do(c, s, t, a), t);
      }
    }
  }

  lemma {:induction false} ScheduleInGateOrder(c: Config, schedule: seq<(Caller, Action)>)
    ensures InGateOrder(Execute(c, schedule))
  {
    if schedule != [] {
      var front := schedule[..|schedule| - 1];
      ScheduleInGateOrder(c, front);
      ScheduleOk(c, front);
      var (t, a) := schedule[|schedule| - 1];
      hide Inv, InGateOrder, Do;
      StepInGateOrder(c, Execute(c, front), t, a);
    }
  }

  /** One mutator at a time, no reader beside a writer, and a caller told of an error holds nothing. */
  lemma MutualExclusion(c: Config, schedule: seq<(Caller, Action)>, t: Caller, u: Caller)
    requires var s := Execute(c, schedule); t in s.pcs && u in s.pcs
    ensures var s := Execute(c, schedule);
      && (HoldsGate(s.pcs[t]) && HoldsGate(s.pcs[u]) ==> t == u)
      && (HoldsWriteLock(s.pcs[t]) ==> HoldsGate(s.pcs[t]))
      && (HoldsWriteLock(s.pcs[t]) && (HoldsWriteLock(s.pcs[u]) || HoldsReadLock(s.pcs[u])) ==> t == u)
      && (s.pcs[t].Done? ==> s.gate != Some(t) && s.writer != Some(t) && t !in s.readers)
  {
    hide Execute, Knows, StoreOk, LogOk, OffersOk;
    ScheduleOk(c, schedule);
    var s := Execute(c, schedule);
    assert LocksOf(s, t) && LocksOf(s, u);
  }

  /**
    No lost update: whenever nobody is writing, the store is the initial one with the completed mutations
    applied one after another, each doing to the store before it what its caller asked for; exactly the
    callers that succeeded are among them, each once, in the order in which they took the gate.
   */
  lemma StoreIsSerial(c: Config, schedule: seq<(Caller, Action)>)
    ensures var s := Execute(c, schedule);
      && (s.writer.None? ==> s.store == Replay(c.initial, s.log))
      && (forall t | t in s.pcs :: HasSucceeded(s.pcs[t]) <==> Logged(s.log, t))
      && (forall i, j | 0 <= i < j < |s.log| :: s.log[i].0 != s.log[j].0)
      && (forall i | 0 <= i < |s.log| :: LogEntryOk(c, s.log, i))
      && CallersOf(s.log) == CompletedOf(s.entered, s.log)
  {
    hide Execute, Knows, Locks, OffersOk, LogEntryOk, Replay, HasSucceeded, Logged, CallersOf, CompletedOf;
    ScheduleOk(c, schedule);
    ScheduleInGateOrder(c, schedule);
  }

  /** A caller that failed, in any way and at any point, is not among the completed mutations. */
  lemma FailureChangesNothing(c: Config, schedule: seq<(Caller, Action)>, t: Caller)
    requires var s := Execute(c, schedule);
      t in s.pcs && s.pcs[t].Done? && s.pcs[t].outcome.Failed?
    ensures var s := Execute(c, schedule);
      && !Logged(s.log, t)
      && (forall i | 0 <= i < |s.offers| :: s.offers[i].0 != t)
  {
    hide Execute, Knows, Locks, LogEntryOk, Replay, OfferOk, StoreOk, DurableOf;
    ScheduleOk(c, schedule);
    var s := Execute(c, schedule);
    forall i | 0 <= i < |s.offers| ensures s.offers[i].0 != t {
      OffererGoesOn(c, schedule, i);
    }
  }

  /**
    The store a commit publishes over is the store it read: once persisted, each of its records is the
    store's own record but for the value, and its changes are the request measured on that store.
   */
  lemma CommitPublishesOverWhatItRead(c: Config, schedule: seq<(Caller, Action)>, t: Caller)
    requires var s := Execute(c, schedule); t in s.pcs && s.pcs[t].Accepted?
    ensures var s := Execute(c, schedule); var entries := s.pcs[t].entries;
      && s.store == Replay(c.initial, s.log)
      && t in c.requests && c.requests[t].Commit?
      && AllNormalized(c.p, c.pluginID, c.requests[t].values, s.store, entries)
      && Requested(c.p, c.pluginID, c.requests[t].values, s.store, ChangesOf(entries))
  {
    hide Execute, Knows, AllNormalized, Covers, Requested, Inv, Replay, ChangesOf;
    ScheduleOk(c, schedule);
    var s := Execute(c, schedule);
    AcceptedKnows(c, s, t);
    RequestIsMet(c.p, c.pluginID, c.requests[t].values, s.store, s.pcs[t].entries);
  }

  lemma AcceptedKnows(c: Config, s: State, t: Caller)
    requires Inv(c, s) && t in s.pcs && s.pcs[t].Accepted?
    ensures t in c.requests && c.requests[t].Commit? && s.store == Replay(c.initial, s.log)
    ensures KnowsAll(c, c.requests[t].values, s.store, s.pcs[t].entries)
  {
    hide Replay, KnowsAll, LogOk, OffersOk;
    KnowsAt(c, s, t);
    if s.writer.Some? {
      assert LocksOf(s, s.writer.value);
    }
  }

  /** Everything a reader looks at under one lock is one store, made by completed mutations only. */
  lemma ReadersSeeNoHalfCommit(c: Config, schedule: seq<(Caller, Action)>, t: Caller)
    requires var s := Execute(c, schedule);
      t in s.pcs && s.pcs[t].Done? && s.pcs[t].outcome.Snapshot?
    ensures var s := Execute(c, schedule); SeenAtOnce(c, s.log, s.pcs[t].outcome.views)
  {
    hide Execute, Inv, SeenAtOnce, Replay;
    ScheduleOk(c, schedule);
    KnowsAt(c, Execute(c, schedule), t);
  }

  lemma {:induction false} DurableAreLogged(c: Config, log: seq<(Caller, Mutation)>, i: nat)
    requires i < |DurableOf(c, log)|
    ensures Logged(log, DurableOf(c, log)[i].0)
  {
    var front := log[..|log| - 1];
    if i < |DurableOf(c, front)| {
      DurableAreLogged(c, front, i);
      var j :| 0 <= j < |front| && front[j].0 == DurableOf(c, front)[i].0;
      assert log[j].0 == DurableOf(c, log)[i].0;
    } else {
      assert log[|log| - 1].0 == DurableOf(c, log)[i].0;
    }
  }

  /** A caller whose payload was accepted is publishing it or has succeeded, cancelled meanwhile or not. */
  lemma OffererGoesOn(c: Config, schedule: seq<(Caller, Action)>, i: nat)
    requires i < |Execute(c, schedule).offers|
    ensures var s := Execute(c, schedule); var t := s.offers[i].0;
      t in s.pcs && (s.pcs[t].Accepted? || s.pcs[t].Publishing? || HasSucceeded(s.pcs[t]))
  {
    hide Execute, Knows, LogEntryOk, Replay, StoreOk, DurableOf, Persists;
    ScheduleOk(c, schedule);
    var s := Execute(c, schedule);
    var due := DurableOf(c, s.log) + Pending(c, s);
    assert OfferOk(c, s.offers[i], due[i]);
    if i < |DurableOf(c, s.log)| {
      DurableAreLogged(c, s.log, i);
      assert Logged(s.log, s.offers[i].0);
      assert s.offers[i].0 in c.requests;
    }
  }

  /** The persist callback gets one key for each requested ID. */
  lemma OneKeyPerID(c: Config, schedule: seq<(Caller, Action)>, i: nat)
    requires i < |Execute(c, schedule).offers|
    ensures var (t, payload) := Execute(c, schedule).offers[i];
      && Durable(c, t) && |payload| == |c.requests[t].values|
      && (forall id | id in c.requests[t].values ::
            && ParseSettingID(c.pluginID, id).Some?
            && PayloadKey(ParseSettingID(c.pluginID, id).value) in payload)
      && (forall k | k in payload :: KeyRequested(c.pluginID, c.requests[t].values, k))
  {
    hide Execute, Knows, LogOk, Replay, StoreOk, DurableOf, Locks, Pending, ParseSettingID, PayloadKey, KeyRequested;
    ScheduleOk(c, schedule);
    var s := Execute(c, schedule);
    var due := DurableOf(c, s.log) + Pending(c, s);
    assert OfferOk(c, s.offers[i], due[i]);
    var (t, payload) := s.offers[i];
    forall id | id in c.requests[t].values
      ensures ParseSettingID(c.pluginID, id).Some? && PayloadKey(ParseSettingID(c.pluginID, id).value) in payload
    {
      assert IDPersisted(c.pluginID, due[i].1, payload, id);
    }
  }

  /** The value of a persisted key after a sequence of accepted payloads. */
  function LastOffer(offers: seq<(Caller, map<string, Val>)>, key: string, initial: Val): Val {
    if offers == [] then initial
    else
      var payload := offers[|offers| - 1].1;
      if key in payload then payload[key] else LastOffer(offers[..|offers| - 1], key, initial)
  }

  /** A target changes exactly when its key was persisted, to the persisted value. */
  lemma OfferMatchesChange(
    c: Config, offer: (Caller, map<string, Val>), due: (Caller, map<Target, Val>), id: string, target: Target)
    requires OfferOk(c, offer, due) && ParseSettingID(c.pluginID, id) == Some(target)
    ensures target in due.1 <==> PayloadKey(target) in offer.1
    ensures target in due.1 ==> due.1[target] == offer.1[PayloadKey(target)]
  {
    hide ParseSettingID, PayloadKey;
    var values := c.requests[offer.0].values;
    if target in due.1 {
      assert TargetRequested(c.pluginID, values, target);
      var j :| j in values && ParseSettingID(c.pluginID, j) == Some(target);
      assert IDPersisted(c.pluginID, due.1, offer.1, j);
    }
    if PayloadKey(target) in offer.1 {
      assert KeyRequested(c.pluginID, values, PayloadKey(target));
      var j :| j in values && ParseSettingID(c.pluginID, j).Some?
               && PayloadKey(ParseSettingID(c.pluginID, j).value) == PayloadKey(target);
      IDsAreInjective(c.pluginID, id, j);
      assert IDPersisted(c.pluginID, due.1, offer.1, j);
    }
  }

  predicate KeepsValue(store: Store, m: Mutation, target: Target) {
    Has(store, target) ==> Has(Apply(store, m), target) && At(Apply(store, m), target).value == At(store, target).value
  }

  /** Whatever else completed -- registrations, say -- left this setting's value alone. */
  ghost predicate OnlyDurableChanges(c: Config, log: seq<(Caller, Mutation)>, target: Target) {
    forall i | 0 <= i < |log| :: Durable(c, log[i].0) || KeepsValue(Replay(c.initial, log[..i]), log[i].1, target)
  }

  /** Registering again, or registering and resetting elsewhere, is such a step. */
  lemma HarmlessSteps(store: Store, m: Mutation, target: Target)
    requires match m
      case SetValues(changes) => target !in changes
      case ResetValue(t) => t != target
      case Register(category, settings) => Has(store, target) && category == target.0 ==>
        forall i | 0 <= i < |settings| && settings[i].id == target.1 :: settings[i].kind == At(store, target).kind
    ensures KeepsValue(store, m, target)
  {
    if Has(store, target) {
      match m
      case SetValues(changes) => ValueAfter(store, changes, target);
      case ResetValue(t) =>
        if Has(store, t) {
          ValueAfter(store, map[t := At(store, t).default_], target);
        }
      case Register(category, settings) =>
        if category == target.0 {
          RegisterKeepsValues(store[category].settings, settings, target.1);
        }
    }
  }

  lemma {:induction false} ReplayIsLastOffer(
    c: Config, log: seq<(Caller, Mutation)>, offers: seq<(Caller, map<string, Val>)>, id: string, target: Target)
    requires OnlyDurableChanges(c, log, target) && forall i | 0 <= i < |log| :: LogEntryOk(c, log, i)
    requires OffersOk(c, offers, DurableOf(c, log))
    requires ParseSettingID(c.pluginID, id) == Some(target) && Has(c.initial, target)
    ensures Has(Replay(c.initial, log), target)
    ensures At(Replay(c.initial, log), target).value
         == LastOffer(offers, PayloadKey(target), At(c.initial, target).value)
  {
    hide ParseSettingID, PayloadKey, Requested, OfferOk;
    if log != [] {
      var front := log[..|log| - 1];
      var (t, m) := log[|log| - 1];
      assert LogEntryOk(c, log, |log| - 1);
      assert forall i | 0 <= i < |front| :: front[..i] == log[..i];
      forall i | 0 <= i < |front| ensures LogEntryOk(c, front, i) {
        assert LogEntryOk(c, log, i);
      }
      if !Durable(c, t) {
        ReplayIsLastOffer(c, front, offers, id, target);
        assert KeepsValue(Replay(c.initial, front), m, target);
        return;
      }
      var due := DurableOf(c, log);
      assert due == DurableOf(c, front) + [(t, m.changes)];
      assert OffersOk(c, offers[..|offers| - 1], DurableOf(c, front)) by {
        forall i | 0 <= i < |offers| - 1 ensures OfferOk(c, offers[..|offers| - 1][i], DurableOf(c, front)[i]) {
          assert OfferOk(c, offers[i], due[i]);
        }
      }
      ReplayIsLastOffer(c, front, offers[..|offers| - 1], id, target);
      assert OfferOk(c, offers[|offers| - 1], due[|offers| - 1]);
      OfferMatchesChange(c, offers[|offers| - 1], (t, m.changes), id, target);
      ValueAfter(Replay(c.initial, front), m.changes, target);
    }
  }

  lemma ValueAfter(store: Store, changes: map<Target, Val>, target: Target)
    requires Has(store, target)
    ensures Has(WithValues(store, changes), target)
    ensures At(WithValues(store, changes), target).value
         == if target in changes then changes[target] else At(store, target).value
  {
    WithValuesAt(store, changes, target.0);
  }

  /**
    Memory equals disk: when the gate is free, a setting that was there and whose value only durable
    commits have changed has the value persist last accepted for it, or its initial value if there was none.
   */
  lemma PublishedIsPersisted(c: Config, schedule: seq<(Caller, Action)>, id: string)
    requires var s := Execute(c, schedule);
      && s.gate.None? && ParseSettingID(c.pluginID, id).Some?
      && OnlyDurableChanges(c, s.log, ParseSettingID(c.pluginID, id).value)
    requires ParseSettingID(c.pluginID, id).Some? && Has(c.initial, ParseSettingID(c.pluginID, id).value)
    ensures var s := Execute(c, schedule); var target := ParseSettingID(c.pluginID, id).value;
      && Has(s.store, target)
      && At(s.store, target).value == LastOffer(s.offers, PayloadKey(target), At(c.initial, target).value)
  {
    hide Execute, Knows, Replay, LogEntryOk, DurableOf, OfferOk, ParseSettingID, PayloadKey, OnlyDurableChanges;
    ScheduleOk(c, schedule);
    var s := Execute(c, schedule);
    if s.writer.Some? {
      assert LocksOf(s, s.writer.value);
    }
    assert Pending(c, s) == [] && DurableOf(c, s.log) + [] == DurableOf(c, s.log);
    ReplayIsLastOffer(c, s.log, s.offers, id, ParseSettingID(c.pluginID, id).value);
  }
}
