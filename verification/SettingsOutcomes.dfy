/**
  How callers of the settings provider end: a commit that nothing stands against can succeed, readers are
  not held up by callbacks, and every error has its cause.
 */
module SettingsOutcomes {
  import opened Wrappers
  import opened SettingNormalization
  import opened Settings
  import opened SettingsProtocol

  // ---------- one caller running alone ----------

  function By(t: Caller, actions: seq<Action>): seq<(Caller, Action)> {
    seq(|actions|, i requires 0 <= i < |actions| => (t, actions[i]))
  }

  function Run(c: Config, s: State, t: Caller, actions: seq<Action>): State {
    if actions == [] then s
    else Do(c, Run(c, s, t, actions[..|actions| - 1]), t, actions[|actions| - 1])
  }

  lemma {:induction false} ExecuteBy(c: Config, schedule: seq<(Caller, Action)>, t: Caller, actions: seq<Action>)
    ensures Execute(c, schedule + By(t, actions)) == Run(c, Execute(c, schedule), t, actions)
  {
    hide Do;
    var all := schedule + By(t, actions);
    if actions == [] {
      assert all == schedule;
    } else {
      var front := actions[..|actions| - 1];
      ExecuteBy(c, schedule, t, front);
      assert all[..|all| - 1] == schedule + By(t, front);
    }
  }

  /** Nobody cancels, no validator refuses and persist does not fail. */
  ghost predicate Benign(actions: seq<Action>) {
    forall a | a in actions :: a != Cancel && a != NormalizeOne(false) && a != Persist(false)
  }

  ghost predicate Reaches(c: Config, s: State, t: Caller, s': State) {
    exists actions :: Benign(actions) && Run(c, s, t, actions) == s'
  }

  lemma ReachesItself(c: Config, s: State, t: Caller)
    ensures Reaches(c, s, t, s)
  {
    assert Run(c, s, t, []) == s && Benign([]);
  }

  lemma ReachesNext(c: Config, s: State, t: Caller, s': State, a: Action)
    requires Reaches(c, s, t, s') && Benign([a])
    ensures Reaches(c, s, t, Do(c, s', t, a))
  {
    hide Do;
    var actions :| Benign(actions) && Run(c, s, t, actions) == s';
    assert (actions + [a])[..|actions|] == actions && a in [a];
    assert Benign(actions + [a]);
    assert Run(c, s, t, actions + [a]) == Do(c, s', t, a);
  }

  /** Nobody holds the gate or a store lock. */
  predicate Idle(s: State) {
    s.gate.None? && s.writer.None? && s.readers == {}
  }

  /** The requested ID names a setting of the store that takes the requested value. */
  ghost predicate Committable(c: Config, store: Store, values: map<string, Val>, id: string)
    requires id in values
  {
    var read := GetSetting(store, c.pluginID, id);
    read.Ok? && NormalizeValue(c.p, read.value.Form(), values[id]).Some?
  }

  ghost predicate ReadFrom(c: Config, store: Store, values: map<string, Val>, e: Entry) {
    && e.id in values && GetSetting(store, c.pluginID, e.id) == Ok(e.setting)
    && ParseSettingID(c.pluginID, e.id) == Some(e.target) && Has(store, e.target)
  }

  lemma ReadsAll(c: Config, s: State, t: Caller, s1: State, values: map<string, Val>) returns (s2: State)
    requires Reaches(c, s, t, s1) && t in s1.pcs && t in c.requests && s1.pcs[t].Preparing?
    requires s1.pcs[t].todo <= values.Keys
    requires forall id | id in values :: Committable(c, s1.store, values, id)
    requires forall e | e in s1.pcs[t].read :: ReadFrom(c, s1.store, values, e)
    ensures Reaches(c, s, t, s2) && t in s2.pcs && s2.pcs[t].Preparing? && s2 == Set(s1, t, s2.pcs[t])
    ensures s2.pcs[t].todo == {} && forall e | e in s2.pcs[t].read :: ReadFrom(c, s1.store, values, e)
    decreases s1.pcs[t].todo
  {
    hide Reaches, NormalizeValue, ParseSettingID;
    var pc := s1.pcs[t];
    if pc.todo == {} {
      s2 := s1;
    } else {
      var id :| id in pc.todo;
      assert Committable(c, s1.store, values, id);
      var read := GetSetting(s1.store, c.pluginID, id);
      ReachesNext(c, s, t, s1, ReadOne(id));
      var next := Do(c, s1, t, ReadOne(id));
      var e := Entry(id, ParseSettingID(c.pluginID, id).value, read.value);
      assert next == Set(s1, t, Preparing(pc.todo - {id}, pc.read + [e]));
      assert ReadFrom(c, s1.store, values, e);
      s2 := ReadsAll(c, s, t, next, values);
    }
  }

  /** The entries from n on are as they were read; all name settings of the store. */
  ghost predicate HalfNormalized(c: Config, store: Store, values: map<string, Val>, entries: seq<Entry>, n: nat) {
    && n <= |entries|
    && (forall i | n <= i < |entries| :: ReadFrom(c, store, values, entries[i]))
    && (forall i | 0 <= i < |entries| :: Has(store, entries[i].target))
  }

  lemma NormalizesAll(c: Config, s: State, t: Caller, s1: State) returns (s2: State)
    requires Reaches(c, s, t, s1) && t in s1.pcs && t in c.requests && c.requests[t].Commit? && s1.pcs[t].Normalizing?
    requires forall id | id in c.requests[t].values :: Committable(c, s1.store, c.requests[t].values, id)
    requires HalfNormalized(c, s1.store, c.requests[t].values, s1.pcs[t].entries, s1.pcs[t].n)
    ensures Reaches(c, s, t, s2) && t in s2.pcs && s2.pcs[t].Normalizing? && s2 == Set(s1, t, s2.pcs[t])
    ensures s2.pcs[t].n == |s2.pcs[t].entries|
    ensures HalfNormalized(c, s1.store, c.requests[t].values, s2.pcs[t].entries, s2.pcs[t].n)
    decreases |s1.pcs[t].entries| - s1.pcs[t].n
  {
    hide Reaches, NormalizeValue, ParseSettingID, GetSetting;
    var pc, values := s1.pcs[t], c.requests[t].values;
    if pc.n == |pc.entries| {
      s2 := s1;
    } else {
      var e := pc.entries[pc.n];
      assert ReadFrom(c, s1.store, values, e) && Committable(c, s1.store, values, e.id);
      var v := NormalizeValue(c.p, e.setting.Form(), values[e.id]).value;
      ReachesNext(c, s, t, s1, NormalizeOne(true));
      var next := Do(c, s1, t, NormalizeOne(true));
      var entries := pc.entries[pc.n := e.(setting := e.setting.(value := v))];
      assert next == Set(s1, t, Normalizing(entries, pc.n + 1));
      s2 := NormalizesAll(c, s, t, next);
    }
  }

  lemma WritesAll(c: Config, s: State, t: Caller, s1: State) returns (s2: State)
    requires Reaches(c, s, t, s1) && t in s1.pcs && t in c.requests && s1.pcs[t].Publishing?
    requires s1.pcs[t].n <= |s1.pcs[t].entries|
    requires forall i | 0 <= i < |s1.pcs[t].entries| :: Has(s1.store, s1.pcs[t].entries[i].target)
    ensures Reaches(c, s, t, s2)
    ensures var entries := s1.pcs[t].entries;
      s2 == Set(s1, t, Publishing(entries, |entries|)).(store := s2.store)
    decreases |s1.pcs[t].entries| - s1.pcs[t].n
  {
    hide Reaches;
    var pc := s1.pcs[t];
    if pc.n == |pc.entries| {
      s2 := s1;
    } else {
      var e := pc.entries[pc.n];
      assert Has(s1.store, e.target);
      ReachesNext(c, s, t, s1, Write);
      var next := Do(c, s1, t, Write);
      assert next == Set(s1, t, Publishing(pc.entries, pc.n + 1)).(store := Publish(s1.store, e.target, e.setting));
      s2 := WritesAll(c, s, t, next);
    }
  }

  /** From an idle state up to the second look at the context. */
  lemma GetsToPoll(c: Config, s: State, t: Caller) returns (s': State)
    requires t in s.pcs && t in c.requests && s.pcs[t].Waiting? && c.requests[t].Commit? && Idle(s)
    requires t !in s.cancelled
    requires forall id | id in c.requests[t].values :: Committable(c, s.store, c.requests[t].values, id)
    ensures Reaches(c, s, t, s') && t in s'.pcs && s'.pcs[t].Normalizing? && s'.pcs[t].n == |s'.pcs[t].entries|
    ensures s' == Set(s, t, s'.pcs[t]).(gate := Some(t), entered := s.entered + [t])
    ensures HalfNormalized(c, s.store, c.requests[t].values, s'.pcs[t].entries, s'.pcs[t].n)
  {
    hide Reaches, Committable, ReadFrom;
    var values := c.requests[t].values;
    ReachesItself(c, s, t);
    ReachesNext(c, s, t, s, Enter);
    var s1 := Do(c, s, t, Enter);
    ReachesNext(c, s, t, s1, Recheck);
    var s2 := Do(c, s1, t, Recheck);
    ReachesNext(c, s, t, s2, LockForReading);
    var s3 := Do(c, s2, t, LockForReading);
    assert s3 == Set(s, t, Preparing(values.Keys, [])).(gate := Some(t), entered := s.entered + [t], readers := {t});
    var s4 := ReadsAll(c, s, t, s3, values);
    ReachesNext(c, s, t, s4, UnlockReading);
    var s5 := Do(c, s4, t, UnlockReading);
    assert s5 == Set(s, t, Normalizing(s4.pcs[t].read, 0)).(gate := Some(t), entered := s.entered + [t]) by {
      assert s4.readers - {t} == {};
    }
    ReadIsHalf(c, s.store, values, s4.pcs[t].read);
    s' := NormalizesAll(c, s, t, s5);
  }

  lemma ReadIsHalf(c: Config, store: Store, values: map<string, Val>, read: seq<Entry>)
    requires forall e | e in read :: ReadFrom(c, store, values, e)
    ensures HalfNormalized(c, store, values, read, 0)
  {}

  /** From the second look at the context to the write lock. */
  lemma GetsToWrite(c: Config, s: State, t: Caller, s1: State) returns (s': State)
    requires Reaches(c, s, t, s1) && t in s1.pcs && t in c.requests && c.requests[t].Commit?
    requires s1.pcs[t].Normalizing? && s1.pcs[t].n == |s1.pcs[t].entries|
    requires t !in s1.cancelled && s1.writer.None? && s1.readers == {}
    ensures Reaches(c, s, t, s')
    ensures var entries := s1.pcs[t].entries;
      s' == Set(s1, t, Publishing(entries, 0)).(
        writer := Some(t),
        offers := if c.requests[t].durable then s1.offers + [(t, PayloadOf(entries))] else s1.offers)
  {
    hide Reaches, PayloadOf, DoGate, DoRead;
    var entries := s1.pcs[t].entries;
    ReachesNext(c, s, t, s1, Poll);
    var s2 := Do(c, s1, t, Poll);
    assert s2 == Set(s1, t, Offering(entries));
    ReachesNext(c, s, t, s2, Persist(true));
    var s3 := Do(c, s2, t, Persist(true));
    assert s3 == Set(s1, t, Accepted(entries)).(offers := s3.offers);
    ReachesNext(c, s, t, s3, LockForWriting);
    s' := Do(c, s3, t, LockForWriting);
  }

  /** From the write lock to the end. */
  lemma GetsThrough(c: Config, s: State, t: Caller, s1: State) returns (s': State)
    requires Reaches(c, s, t, s1) && t in s1.pcs && t in c.requests
    requires s1.pcs[t].Publishing? && s1.pcs[t].n == 0
    requires forall i | 0 <= i < |s1.pcs[t].entries| :: Has(s1.store, s1.pcs[t].entries[i].target)
    ensures Reaches(c, s, t, s')
    ensures s' == Set(s1, t, Done(Succeeded)).(
      gate := None, writer := None, store := s'.store,
      log := s1.log + [(t, SetValues(ChangesOf(s1.pcs[t].entries)))])
  {
    hide Reaches, ChangesOf, DoRead, DoCallbacks;
    var entries := s1.pcs[t].entries;
    var s2 := WritesAll(c, s, t, s1);
    ReachesNext(c, s, t, s2, UnlockWriting);
    var s3 := Do(c, s2, t, UnlockWriting);
    assert s3 == Set(s2, t, Leaving(Succeeded)).(writer := None, log := s2.log + [(t, SetValues(ChangesOf(entries)))]);
    ReachesNext(c, s, t, s3, Leave);
    s' := Do(c, s3, t, Leave);
  }

  // ---------- what can succeed ----------

  /** A caller's own commit is the only thing that has happened since s. */
  ghost predicate Committed(c: Config, s: State, t: Caller, s': State, changes: map<Target, Val>)
    requires t in c.requests && c.requests[t].Commit?
  {
    && t in s.pcs && s'.pcs == s.pcs[t := Done(Succeeded)] && Idle(s')
    && s'.log == s.log + [(t, SetValues(changes))]
    && Requested(c.p, c.pluginID, c.requests[t].values, s.store, changes)
    && s'.store == WithValues(s.store, changes)
    && if c.requests[t].durable then
         && |s'.offers| == |s.offers| + 1 && s'.offers[..|s.offers|] == s.offers && s'.offers[|s.offers|].0 == t
         && Persists(c.pluginID, c.requests[t].values, changes, s'.offers[|s.offers|].1)
       else s'.offers == s.offers
  }

  /**
    After any schedule that leaves nobody inside, a waiting commit whose IDs are all known and whose values
    all have their settings' types can run to success, if it is not cancelled, no validator refuses and
    persist accepts: what it asked for is then published, logged and, if it is durable, persisted.
   */
  lemma CommitCanSucceed(c: Config, schedule: seq<(Caller, Action)>, t: Caller)
    returns (actions: seq<Action>, changes: map<Target, Val>)
    requires var s := Execute(c, schedule);
      && t in s.pcs && t in c.requests && c.requests[t].Commit? && s.pcs[t].Waiting? && Idle(s) && t !in s.cancelled
      && forall id | id in c.requests[t].values :: Committable(c, s.store, c.requests[t].values, id)
    ensures Benign(actions)
    ensures Committed(c, Execute(c, schedule), t, Execute(c, schedule + By(t, actions)), changes)
  {
    hide Execute, Committable, Do, ReadFrom, ChangesOf, PayloadOf, Inv, Requested, Persists, Apply;
    var s := Execute(c, schedule);
    var s1 := GetsToPoll(c, s, t);
    var s2 := GetsToWrite(c, s, t, s1);
    var s' := GetsThrough(c, s, t, s2);
    actions :| Benign(actions) && Run(c, s, t, actions) == s';
    changes := ChangesOf(s1.pcs[t].entries);
    ExecuteBy(c, schedule, t, actions);
    ScheduleOk(c, schedule);
    ScheduleOk(c, schedule + By(t, actions));
    CommitIsSerial(c, s, t, s', changes, PayloadOf(s1.pcs[t].entries));
  }

  /** What the invariant says of a state in which one more commit has completed. */
  lemma CommitIsSerial(c: Config, s: State, t: Caller, s': State, changes: map<Target, Val>, payload: map<string, Val>)
    requires Inv(c, s) && Inv(c, s') && s.writer.None? && Idle(s') && t in c.requests && c.requests[t].Commit?
    requires s'.log == s.log + [(t, SetValues(changes))]
    requires s'.offers == if c.requests[t].durable then s.offers + [(t, payload)] else s.offers
    ensures Requested(c.p, c.pluginID, c.requests[t].values, s.store, changes)
    ensures s'.store == WithValues(s.store, changes)
    ensures c.requests[t].durable ==> Persists(c.pluginID, c.requests[t].values, changes, payload)
  {
    hide Knows, Locks, Requested, WithValues, Persists, DurableOf;
    var n := |s.log|;
    assert LogEntryOk(c, s'.log, n) && s'.log[..n] == s.log;
    ReplayGrows(c, s.log, t, SetValues(changes));
    if c.requests[t].durable {
      DurableGrows(c, s.log, t, SetValues(changes));
      assert Pending(c, s') == [];
      var due := DurableOf(c, s'.log);
      assert due + [] == due;
      assert OfferOk(c, s'.offers[|s.offers|], due[|s.offers|]);
    }
  }

  /** A reset of a setting that is there succeeds; any other fails and leaves the store alone. */
  lemma ResetRuns(c: Config, schedule: seq<(Caller, Action)>, t: Caller)
    returns (actions: seq<Action>)
    requires var s := Execute(c, schedule);
      t in s.pcs && t in c.requests && c.requests[t].Reset? && s.pcs[t].Waiting? && Idle(s)
    ensures Benign(actions)
    ensures var s, s' := Execute(c, schedule), Execute(c, schedule + By(t, actions));
      && Idle(s') && s'.offers == s.offers
      && match GetSetting(s.store, c.pluginID, c.requests[t].id)
         case Err(e) => s'.pcs == s.pcs[t := Done(Failed(e))] && s'.store == s.store && s'.log == s.log
         case Ok(_) =>
           && s'.pcs == s.pcs[t := Done(Succeeded)] && ParseSettingID(c.pluginID, c.requests[t].id).Some?
           && var m := ResetValue(ParseSettingID(c.pluginID, c.requests[t].id).value);
              s'.log == s.log + [(t, m)] && s'.store == Apply(s.store, m)
  {
    hide Execute, Inv, ParseSettingID, Apply, DoRead, DoCallbacks, Publish, Reaches;
    var s := Execute(c, schedule);
    var s3 := GetsToLock(c, s, t);
    var read := GetSetting(s.store, c.pluginID, c.requests[t].id);
    ReachesNext(c, s, t, s3, Write);
    var s4 := Do(c, s3, t, Write);
    actions := LeavesAgain(c, schedule, t, s4);
    ScheduleOk(c, schedule);
    ScheduleOk(c, schedule + By(t, actions));
    if read.Ok? {
      MutationIsSerial(c, s, t, Execute(c, schedule + By(t, actions)), s4.pcs[t].m);
    }
  }

  lemma RegistrationRuns(c: Config, schedule: seq<(Caller, Action)>, t: Caller)
    returns (actions: seq<Action>)
    requires var s := Execute(c, schedule);
      t in s.pcs && t in c.requests && c.requests[t].Registration? && s.pcs[t].Waiting? && Idle(s)
    ensures Benign(actions)
    ensures var s, s' := Execute(c, schedule), Execute(c, schedule + By(t, actions));
      var m := Register(c.requests[t].category, c.requests[t].settings);
      && Idle(s') && s'.offers == s.offers && s'.pcs == s.pcs[t := Done(Succeeded)]
      && s'.log == s.log + [(t, m)] && s'.store == Apply(s.store, m)
  {
    hide Execute, Inv, Apply, DoRead, DoCallbacks, Reaches;
    var s := Execute(c, schedule);
    var s3 := GetsToLock(c, s, t);
    ReachesNext(c, s, t, s3, Write);
    var s4 := Do(c, s3, t, Write);
    actions := LeavesAgain(c, schedule, t, s4);
  }

  /** From an idle state to the write lock. */
  lemma GetsToLock(c: Config, s: State, t: Caller) returns (s': State)
    requires t in s.pcs && t in c.requests && s.pcs[t].Waiting? && Idle(s)
    requires c.requests[t].Reset? || c.requests[t].Registration?
    ensures Reaches(c, s, t, s')
    ensures s' == Set(s, t, Locked).(gate := Some(t), writer := Some(t), entered := s.entered + [t])
  {
    hide Reaches, DoRead, DoCallbacks;
    ReachesItself(c, s, t);
    ReachesNext(c, s, t, s, Enter);
    var s1 := Do(c, s, t, Enter);
    ReachesNext(c, s, t, s1, Recheck);
    var s2 := Do(c, s1, t, Recheck);
    ReachesNext(c, s, t, s2, LockForWriting);
    s' := Do(c, s2, t, LockForWriting);
  }

  /** From the written store to the end. */
  lemma LeavesAgain(c: Config, schedule: seq<(Caller, Action)>, t: Caller, s1: State) returns (actions: seq<Action>)
    requires Reaches(c, Execute(c, schedule), t, s1) && t in s1.pcs && t in c.requests
    requires s1.pcs[t].Written? || s1.pcs[t].Refused?
    ensures Benign(actions)
    ensures var s' := Execute(c, schedule + By(t, actions));
      s' == match s1.pcs[t]
        case Written(m) => Set(s1, t, Done(Succeeded)).(gate := None, writer := None, log := s1.log + [(t, m)])
        case Refused(e) => Set(s1, t, Done(Failed(e))).(gate := None, writer := None)
        case _ => s'
  {
    var s := Execute(c, schedule);
    hide Reaches, Execute, DoRead, DoCallbacks;
    ReachesNext(c, s, t, s1, UnlockWriting);
    var s2 := Do(c, s1, t, UnlockWriting);
    ReachesNext(c, s, t, s2, Leave);
    var s' := Do(c, s2, t, Leave);
    actions := Reached(c, s, t, s');
    ExecuteBy(c, schedule, t, actions);
  }

  lemma Reached(c: Config, s: State, t: Caller, s': State) returns (actions: seq<Action>)
    requires Reaches(c, s, t, s')
    ensures Benign(actions) && Run(c, s, t, actions) == s'
  {
    actions :| Benign(actions) && Run(c, s, t, actions) == s';
  }

  lemma MutationIsSerial(c: Config, s: State, t: Caller, s': State, m: Mutation)
    requires Inv(c, s) && Inv(c, s') && s.writer.None? && s'.writer.None? && s'.log == s.log + [(t, m)]
    ensures s'.store == Apply(s.store, m)
  {
    hide Knows, Locks, LogOk, OffersOk;
    ReplayGrows(c, s.log, t, m);
  }

  /** While nobody is publishing -- a commit may be validating or persisting -- a reader gets its look at the store. */
  lemma ReaderIsNotHeldUp(c: Config, schedule: seq<(Caller, Action)>, t: Caller) returns (actions: seq<Action>)
    requires var s := Execute(c, schedule);
      && t in s.pcs && t in c.requests && c.requests[t].Read? && s.pcs[t].Waiting?
      && forall u | u in s.pcs :: !HoldsWriteLock(s.pcs[u])
    ensures Benign(actions)
    ensures var s := Execute(c, schedule);
      Execute(c, schedule + By(t, actions)) == Set(s, t, Done(Snapshot([s.store])))
  {
    hide Execute, Inv, Reaches;
    var s := Execute(c, schedule);
    ScheduleOk(c, schedule);
    WriterHoldsLock(c, s);
    WaiterReadsNothing(c, s, t);
    var s' := Looks(c, s, t);
    actions := Reached(c, s, t, s');
    ExecuteBy(c, schedule, t, actions);
  }

  lemma WaiterReadsNothing(c: Config, s: State, t: Caller)
    requires Inv(c, s) && t in s.pcs && s.pcs[t].Waiting?
    ensures t !in s.readers
  {
    hide Knows, StoreOk, LogOk, OffersOk;
    assert LocksOf(s, t);
  }

  lemma Looks(c: Config, s: State, t: Caller) returns (s': State)
    requires t in s.pcs && t in c.requests && c.requests[t].Read? && s.pcs[t].Waiting?
    requires s.writer.None? && t !in s.readers
    ensures Reaches(c, s, t, s') && s' == Set(s, t, Done(Snapshot([s.store])))
  {
    hide Reaches, DoGate, DoCallbacks, DoWrite;
    ReachesItself(c, s, t);
    ReachesNext(c, s, t, s, LockForReading);
    var s1 := Do(c, s, t, LockForReading);
    assert s1 == Set(s, t, Reading([])).(readers := s.readers + {t});
    ReachesNext(c, s, t, s1, Observe);
    var s2 := Do(c, s1, t, Observe);
    assert [] + [s1.store] == [s.store];
    assert s2 == Set(s1, t, Reading([s.store]));
    ReachesNext(c, s, t, s2, UnlockReading);
    s' := Do(c, s2, t, UnlockReading);
    assert s.readers + {t} - {t} == s.readers;
  }

  lemma WriterHoldsLock(c: Config, s: State)
    requires Inv(c, s)
    ensures s.writer.Some? ==> s.writer.value in s.pcs && HoldsWriteLock(s.pcs[s.writer.value])
  {
    hide Knows, StoreOk, LogOk, OffersOk;
    if s.writer.Some? {
      assert LocksOf(s, s.writer.value);
    }
  }

  // ---------- why callers fail ----------

  function FailureOf(pc: PC): Option<Error> {
    match pc
    case Refused(e) => Some(e)
    case Leaving(Failed(e)) => Some(e)
    case Done(Failed(e)) => Some(e)
    case _ => None
  }

  /** What must hold of the state in which an action makes its caller fail. */
  ghost predicate Causes(c: Config, s: State, t: Caller, a: Action, e: Error)
    requires t in c.requests
  {
    var request, store := c.requests[t], Replay(c.initial, s.log);
    match e
    case Cancelled => request.Commit? && t in s.cancelled
    case PersistFailed => request.Commit? && request.durable && a == Persist(false)
    case Rejected => request.Commit? && a == NormalizeOne(false)
    case TypeMismatch =>
      request.Commit? && exists id :: id in request.values && Mistyped(c, store, id, request.values[id])
    case _ =>
      || (request.Reset? && GetSetting(store, c.pluginID, request.id) == Err(e))
      || (request.Commit? && exists id :: id in request.values && GetSetting(store, c.pluginID, id) == Err(e))
  }

  /** The ID names a setting of the store that does not take the value. */
  ghost predicate Mistyped(c: Config, store: Store, id: string, v: Val) {
    var read := GetSetting(store, c.pluginID, id);
    read.Ok? && NormalizeValue(c.p, read.value.Form(), v).None?
  }

  ghost predicate HasCause(c: Config, schedule: seq<(Caller, Action)>, t: Caller, e: Error)
    requires t in c.requests
  {
    exists i :: 0 <= i < |schedule| && schedule[i].0 == t && Causes(c, Execute(c, schedule[..i]), t, schedule[i].1, e)
  }

  lemma ReadFailure(c: Config, s: State, t: Caller, a: Action)
    requires Inv(c, s) && t in s.pcs && t in c.requests && FailureOf(s.pcs[t]).None?
    ensures t in DoRead(c, s, t, a).pcs
    ensures var pc := DoRead(c, s, t, a).pcs[t];
      FailureOf(pc).Some? ==> Causes(c, s, t, a, FailureOf(pc).value)
  {
    hide Inv, Replay, ParseSettingID;
    KnowsAt(c, s, t);
    if s.pcs[t].Preparing? {
      ReaderSeesBase(c, s, t);
    }
  }

  /** The entry whose turn it is has a value its setting does not take. */
  ghost predicate IsMistyped(c: Config, request: Request, pc: PC) {
    && request.Commit? && pc.Normalizing? && pc.n < |pc.entries| && pc.entries[pc.n].id in request.values
    && NormalizeValue(c.p, pc.entries[pc.n].setting.Form(), request.values[pc.entries[pc.n].id]).None?
  }

  lemma NormalizeOutcome(c: Config, s: State, t: Caller, valid: bool)
    requires t in s.pcs && t in c.requests && FailureOf(s.pcs[t]).None?
    ensures t in DoCallbacks(c, s, t, NormalizeOne(valid)).pcs
    ensures match FailureOf(DoCallbacks(c, s, t, NormalizeOne(valid)).pcs[t])
      case None => true
      case Some(TypeMismatch) => IsMistyped(c, c.requests[t], s.pcs[t])
      case Some(e) => e == Rejected && !valid && c.requests[t].Commit?
  {
    hide NormalizeValue;
  }

  lemma MistypedEntry(c: Config, s: State, t: Caller)
    requires Inv(c, s) && t in s.pcs && t in c.requests && IsMistyped(c, c.requests[t], s.pcs[t])
    ensures c.requests[t].Commit?
    ensures exists id :: id in c.requests[t].values
                      && Mistyped(c, Replay(c.initial, s.log), id, c.requests[t].values[id])
  {
    KnowsAt(c, s, t);
    hide Inv, Replay, NormalizeValue, Covers, ParseSettingID;
    var e := s.pcs[t].entries[s.pcs[t].n];
    assert Prepared(c.pluginID, c.requests[t].values, Replay(c.initial, s.log), e);
    assert GetSetting(Replay(c.initial, s.log), c.pluginID, e.id) == Ok(e.setting);
    assert Mistyped(c, Replay(c.initial, s.log), e.id, c.requests[t].values[e.id]);
  }

  lemma NormalizeFailure(c: Config, s: State, t: Caller, valid: bool)
    requires Inv(c, s) && t in s.pcs && t in c.requests && FailureOf(s.pcs[t]).None?
    ensures t in DoCallbacks(c, s, t, NormalizeOne(valid)).pcs
    ensures var pc := DoCallbacks(c, s, t, NormalizeOne(valid)).pcs[t];
      FailureOf(pc).Some? ==> Causes(c, s, t, NormalizeOne(valid), FailureOf(pc).value)
  {
    hide Inv, DoCallbacks, FailureOf, Replay, IsMistyped, Mistyped, GetSetting;
    NormalizeOutcome(c, s, t, valid);
    if IsMistyped(c, c.requests[t], s.pcs[t]) {
      MistypedEntry(c, s, t);
    }
  }

  lemma CallbackFailure(c: Config, s: State, t: Caller, a: Action)
    requires Inv(c, s) && t in s.pcs && t in c.requests && FailureOf(s.pcs[t]).None?
    ensures t in DoCallbacks(c, s, t, a).pcs
    ensures var pc := DoCallbacks(c, s, t, a).pcs[t];
      FailureOf(pc).Some? ==> Causes(c, s, t, a, FailureOf(pc).value)
  {
    hide Inv;
    if a.NormalizeOne? {
      hide Causes, DoCallbacks, FailureOf;
      NormalizeFailure(c, s, t, a.valid);
    } else {
      if s.pcs[t].Normalizing? {
        RequestOf(c, s, t);
      }
      hide Replay, NormalizeValue, PayloadOf, GetSetting;
    }
  }

  lemma RequestOf(c: Config, s: State, t: Caller)
    requires Inv(c, s) && t in s.pcs && t in c.requests && s.pcs[t].Normalizing?
    ensures c.requests[t].Commit?
  {
    KnowsAt(c, s, t);
  }

  lemma GateFailure(c: Config, s: State, t: Caller, a: Action)
    requires t in s.pcs && t in c.requests && FailureOf(s.pcs[t]).None?
    ensures t in DoGate(c, s, t, a).pcs
    ensures var pc := DoGate(c, s, t, a).pcs[t];
      FailureOf(pc).Some? ==> Causes(c, s, t, a, FailureOf(pc).value)
  {
    hide Replay, GetSetting;
  }

  lemma WriteFailure(c: Config, s: State, t: Caller, a: Action)
    requires Inv(c, s) && t in s.pcs && t in c.requests && FailureOf(s.pcs[t]).None?
    ensures t in DoWrite(c, s, t, a).pcs
    ensures var pc := DoWrite(c, s, t, a).pcs[t];
      FailureOf(pc).Some? ==> Causes(c, s, t, a, FailureOf(pc).value)
  {
    hide Inv, Replay, ParseSettingID, Publish, Apply, ChangesOf;
    if s.pcs[t].Locked? {
      WriterHolds(c, s, t);
    }
  }

  lemma StepFailure(c: Config, s: State, t: Caller, a: Action)
    requires Inv(c, s) && t in s.pcs && t in c.requests && FailureOf(s.pcs[t]).None?
    ensures t in Do(c, s, t, a).pcs
    ensures var pc := Do(c, s, t, a).pcs[t]; FailureOf(pc).Some? ==> Causes(c, s, t, a, FailureOf(pc).value)
  {
    hide Inv, DoGate, DoRead, DoCallbacks, DoWrite, Causes, FailureOf;
    GateFailure(c, s, t, a);
    ReadFailure(c, s, t, a);
    CallbackFailure(c, s, t, a);
    WriteFailure(c, s, t, a);
  }

  /** A failure lasts, and only a caller's own actions change how it stands. */
  ghost predicate FailureKept(s: State, s': State, u: Caller, t: Caller)
    requires t in s.pcs
  {
    && t in s'.pcs && (u != t ==> s'.pcs[t] == s.pcs[t])
    && (FailureOf(s.pcs[t]).Some? ==> FailureOf(s'.pcs[t]) == FailureOf(s.pcs[t]))
  }

  lemma GateKeepsFailure(c: Config, s: State, u: Caller, a: Action, t: Caller)
    requires t in s.pcs && u in s.pcs && u in c.requests
    ensures FailureKept(s, DoGate(c, s, u, a), u, t)
  {}

  lemma ReadKeepsFailure(c: Config, s: State, u: Caller, a: Action, t: Caller)
    requires t in s.pcs && u in s.pcs && u in c.requests
    ensures FailureKept(s, DoRead(c, s, u, a), u, t)
  {
    hide GetSetting, ParseSettingID;
  }

  lemma CallbacksKeepFailure(c: Config, s: State, u: Caller, a: Action, t: Caller)
    requires t in s.pcs && u in s.pcs && u in c.requests
    ensures FailureKept(s, DoCallbacks(c, s, u, a), u, t)
  {
    hide NormalizeValue, PayloadOf;
  }

  lemma WriteKeepsFailure(c: Config, s: State, u: Caller, a: Action, t: Caller)
    requires t in s.pcs && u in s.pcs && u in c.requests
    ensures FailureKept(s, DoWrite(c, s, u, a), u, t)
  {
    hide GetSetting, ParseSettingID, Publish, Apply, ChangesOf, Has;
  }

  lemma StepKeepsFailure(c: Config, s: State, u: Caller, a: Action, t: Caller)
    requires t in s.pcs
    ensures FailureKept(s, Do(c, s, u, a), u, t)
  {
    hide DoGate, DoRead, DoCallbacks, DoWrite, FailureOf;
    if u in s.pcs && u in c.requests {
      GateKeepsFailure(c, s, u, a, t);
      ReadKeepsFailure(c, s, u, a, t);
      CallbacksKeepFailure(c, s, u, a, t);
      WriteKeepsFailure(c, s, u, a, t);
    }
  }

  /**
    No error without its cause, at the very step that brought it: a cancelled context, a refused persist, a
    refusing validator, or an ID or a value at fault on the store of the mutations completed by then.
   */
  lemma {:induction false} FailureHasCause(c: Config, schedule: seq<(Caller, Action)>, t: Caller)
    requires t in c.requests
    ensures var s := Execute(c, schedule);
      t in s.pcs && (FailureOf(s.pcs[t]).Some? ==> HasCause(c, schedule, t, FailureOf(s.pcs[t]).value))
  {
    hide Do, Causes, Inv;
    if schedule != [] {
      var n := |schedule| - 1;
      var (u, a) := schedule[n];
      var s, s' := Execute(c, schedule[..n]), Execute(c, schedule);
      FailureHasCause(c, schedule[..n], t);
      StepKeepsFailure(c, s, u, a, t);
      if FailureOf(s.pcs[t]).Some? {
        var e := FailureOf(s.pcs[t]).value;
        var i :| 0 <= i < n && schedule[..n][i].0 == t
                 && Causes(c, Execute(c, schedule[..n][..i]), t, schedule[..n][i].1, e);
        assert schedule[..n][..i] == schedule[..i];
        assert Causes(c, Execute(c, schedule[..i]), t, schedule[i].1, e);
      } else if FailureOf(s'.pcs[t]).Some? {
        ScheduleOk(c, schedule[..n]);
        StepFailure(c, s, t, a);
      }
    }
  }

  /** A context is cancelled by its caller's cancellation and by nothing else. */
  lemma {:induction false} CancelledByCancel(c: Config, schedule: seq<(Caller, Action)>, t: Caller)
    ensures t in Execute(c, schedule).cancelled <==> t in c.requests && (t, Cancel) in schedule
  {
    if schedule != [] {
      var front, last := schedule[..|schedule| - 1], schedule[|schedule| - 1];
      CancelledByCancel(c, front, t);
      assert schedule == front + [last];
      var s := Execute(c, front);
      ScheduleOk(c, front);
      hide Execute, Inv;
      OnlyCancelCancels(c, s, last.0, last.1);
    }
  }

  lemma OnlyCancelCancels(c: Config, s: State, u: Caller, a: Action)
    requires s.pcs.Keys == c.requests.Keys
    ensures Do(c, s, u, a).cancelled == if a == Cancel && u in c.requests then s.cancelled + {u} else s.cancelled
  {
    hide NormalizeValue, GetSetting, ParseSettingID, Publish, Apply, ChangesOf, PayloadOf, Has;
  }

  // ---------- what is refused stays refused ----------

  lemma {:induction false} FailureLasts(c: Config, schedule: seq<(Caller, Action)>, i: nat, t: Caller)
    requires i <= |schedule| && t in Execute(c, schedule[..i]).pcs
    requires FailureOf(Execute(c, schedule[..i]).pcs[t]).Some?
    ensures t in Execute(c, schedule).pcs
    ensures FailureOf(Execute(c, schedule).pcs[t]) == FailureOf(Execute(c, schedule[..i]).pcs[t])
  {
    hide Do, FailureOf;
    if i == |schedule| {
      assert schedule[..i] == schedule;
    } else {
      var front := schedule[..|schedule| - 1];
      var (u, a) := schedule[|schedule| - 1];
      assert front[..i] == schedule[..i];
      FailureLasts(c, front, i, t);
      StepKeepsFailure(c, Execute(c, front), u, a, t);
    }
  }

  lemma KeepsCallers(c: Config, schedule: seq<(Caller, Action)>, t: Caller)
    requires t in c.requests
    ensures t in Execute(c, schedule).pcs
  {
    ScheduleOk(c, schedule);
    hide Execute, Knows, StoreOk, LogOk, OffersOk;
  }

  /** The ways a commit can be refused, and the error each one brings. */
  ghost predicate Refuses(c: Config, s: State, t: Caller, a: Action, e: Option<Error>)
    requires t in s.pcs && t in c.requests && c.requests[t].Commit?
  {
    var pc := s.pcs[t];
    && (pc.Offering? && c.requests[t].durable && a == Persist(false) ==> e == Some(PersistFailed))
    && (pc.Normalizing? && pc.n < |pc.entries| && a == NormalizeOne(false) ==> e == Some(Rejected) || e == Some(TypeMismatch))
    && (pc.Normalizing? && pc.n == |pc.entries| && a == Poll && t in s.cancelled ==> e == Some(Cancelled))
    && (pc.Entered? && a == Recheck && t in s.cancelled ==> e == Some(Cancelled))
  }

  lemma RefusingCallback(c: Config, s: State, t: Caller, a: Action)
    requires t in s.pcs && t in c.requests && c.requests[t].Commit? && (a.NormalizeOne? || a.Poll? || a.Persist?)
    requires var pc := s.pcs[t];
      pc.Normalizing? && pc.n < |pc.entries| ==> pc.entries[pc.n].id in c.requests[t].values
    ensures t in DoCallbacks(c, s, t, a).pcs && Refuses(c, s, t, a, FailureOf(DoCallbacks(c, s, t, a).pcs[t]))
  {
    hide NormalizeValue, PayloadOf;
  }

  lemma RefusingGate(c: Config, s: State, t: Caller, a: Action)
    requires t in s.pcs && t in c.requests && c.requests[t].Commit? && a.Recheck?
    ensures t in DoGate(c, s, t, a).pcs && Refuses(c, s, t, a, FailureOf(DoGate(c, s, t, a).pcs[t]))
  {}

  lemma OthersRefuseNothing(c: Config, s: State, t: Caller, a: Action, e: Option<Error>)
    requires t in s.pcs && t in c.requests && c.requests[t].Commit?
    requires !a.NormalizeOne? && !a.Poll? && !a.Persist? && !a.Recheck?
    ensures Refuses(c, s, t, a, e)
  {}

  lemma RefusingStep(c: Config, s: State, t: Caller, a: Action)
    requires Inv(c, s) && t in s.pcs && t in c.requests && c.requests[t].Commit?
    ensures t in Do(c, s, t, a).pcs && Refuses(c, s, t, a, FailureOf(Do(c, s, t, a).pcs[t]))
  {
    StepKeepsFailure(c, s, t, a, t);
    hide Inv, DoGate, DoRead, DoCallbacks, DoWrite, FailureOf, Refuses, FailureKept;
    if s.pcs[t].Normalizing? && s.pcs[t].n < |s.pcs[t].entries| {
      NormalizingIsRequested(c, s, t);
    }
    if a.NormalizeOne? || a.Poll? || a.Persist? {
      RefusingCallback(c, s, t, a);
    } else if a.Recheck? {
      RefusingGate(c, s, t, a);
    } else {
      OthersRefuseNothing(c, s, t, a, FailureOf(Do(c, s, t, a).pcs[t]));
    }
  }

  /** A validator's refusal, a failed persist and a cancellation seen by the commit decide how it ends. */
  lemma RefusalIsFinal(c: Config, schedule: seq<(Caller, Action)>, i: nat, t: Caller)
    requires i < |schedule| && schedule[i].0 == t && t in c.requests && c.requests[t].Commit?
    requires t in Execute(c, schedule[..i]).pcs
    ensures var s' := Execute(c, schedule);
      t in s'.pcs && Refuses(c, Execute(c, schedule[..i]), t, schedule[i].1, FailureOf(s'.pcs[t]))
  {
    var s := Execute(c, schedule[..i]);
    ScheduleOk(c, schedule[..i]);
    RefusingStep(c, s, t, schedule[i].1);
    assert schedule[..i + 1][..i] == schedule[..i];
    assert Execute(c, schedule[..i + 1]) == Do(c, s, t, schedule[i].1);
    hide Execute, Do, Inv, FailureOf;
    StepKeepsFailure(c, s, t, schedule[i].1, t);
    KeepsCallers(c, schedule, t);
    if FailureOf(Do(c, s, t, schedule[i].1).pcs[t]).Some? {
      FailureLasts(c, schedule, i + 1, t);
    }
  }

  lemma NormalizingIsRequested(c: Config, s: State, t: Caller)
    requires Inv(c, s) && t in s.pcs && t in c.requests && s.pcs[t].Normalizing? && s.pcs[t].n < |s.pcs[t].entries|
    ensures c.requests[t].Commit? && s.pcs[t].entries[s.pcs[t].n].id in c.requests[t].values
  {
    KnowsAt(c, s, t);
    hide Inv, Replay, Covers, NormalizeValue, ParseSettingID;
    assert Prepared(c.pluginID, c.requests[t].values, Replay(c.initial, s.log), s.pcs[t].entries[s.pcs[t].n]);
  }

  /** The commit has not yet looked at its context for the second time, or has failed. */
  predicate IsBeforePoll(pc: PC) {
    pc.Waiting? || pc.Entered? || pc.Admitted? || pc.Preparing? || pc.Normalizing? || FailureOf(pc).Some?
  }

  ghost predicate HeldBack(c: Config, s: State, t: Caller) {
    t in s.pcs && t in c.requests && c.requests[t].Commit? && t in s.cancelled && IsBeforePoll(s.pcs[t])
  }

  lemma GateHoldsBack(c: Config, s: State, u: Caller, a: Action, t: Caller)
    requires HeldBack(c, s, t) && u in s.pcs && u in c.requests
    ensures HeldBack(c, DoGate(c, s, u, a), t)
  {}

  lemma ReadHoldsBack(c: Config, s: State, u: Caller, a: Action, t: Caller)
    requires HeldBack(c, s, t) && u in s.pcs && u in c.requests
    ensures HeldBack(c, DoRead(c, s, u, a), t)
  {
    hide GetSetting, ParseSettingID;
  }

  lemma CallbacksHoldBack(c: Config, s: State, u: Caller, a: Action, t: Caller)
    requires HeldBack(c, s, t) && u in s.pcs && u in c.requests
    ensures HeldBack(c, DoCallbacks(c, s, u, a), t)
  {
    hide NormalizeValue, PayloadOf;
  }

  lemma WriteHoldsBack(c: Config, s: State, u: Caller, a: Action, t: Caller)
    requires HeldBack(c, s, t) && u in s.pcs && u in c.requests
    ensures HeldBack(c, DoWrite(c, s, u, a), t)
  {
    hide GetSetting, ParseSettingID, Publish, Apply, ChangesOf, Has;
  }

  lemma CancelledStaysBeforePoll(c: Config, s: State, u: Caller, a: Action, t: Caller)
    requires HeldBack(c, s, t)
    ensures HeldBack(c, Do(c, s, u, a), t)
  {
    hide DoGate, DoRead, DoCallbacks, DoWrite, IsBeforePoll;
    if u in s.pcs && u in c.requests {
      GateHoldsBack(c, s, u, a, t);
      ReadHoldsBack(c, s, u, a, t);
      CallbacksHoldBack(c, s, u, a, t);
      WriteHoldsBack(c, s, u, a, t);
    }
  }

  lemma {:induction false} CancelledNeverPassesPoll(c: Config, schedule: seq<(Caller, Action)>, i: nat, t: Caller)
    requires i <= |schedule| && t in c.requests && c.requests[t].Commit?
    requires var s := Execute(c, schedule[..i]); t in s.pcs && IsBeforePoll(s.pcs[t]) && t in s.cancelled
    ensures var s' := Execute(c, schedule); t in s'.pcs && IsBeforePoll(s'.pcs[t]) && t in s'.cancelled
  {
    hide Do, IsBeforePoll;
    if i == |schedule| {
      assert schedule[..i] == schedule;
    } else {
      var front := schedule[..|schedule| - 1];
      var (u, a) := schedule[|schedule| - 1];
      assert front[..i] == schedule[..i];
      CancelledNeverPassesPoll(c, front, i, t);
      CancelledStaysBeforePoll(c, Execute(c, front), u, a, t);
    }
  }

  /**
    A commit whose context is cancelled before its second look at it completes no mutation, has nothing
    persisted and, if it ends, ends in an error -- whatever anybody does from then on.
   */
  lemma CancelledCommitFails(c: Config, schedule: seq<(Caller, Action)>, i: nat, t: Caller)
    requires i <= |schedule| && t in c.requests && c.requests[t].Commit?
    requires var s := Execute(c, schedule[..i]); t in s.pcs && IsBeforePoll(s.pcs[t]) && t in s.cancelled
    ensures var s' := Execute(c, schedule);
      && t in s'.pcs && !Logged(s'.log, t)
      && (forall k | 0 <= k < |s'.offers| :: s'.offers[k].0 != t)
      && (s'.pcs[t].Done? ==> s'.pcs[t].outcome.Failed?)
  {
    CancelledNeverPassesPoll(c, schedule, i, t);
    ScheduleOk(c, schedule);
    hide Execute, Knows, Locks, StoreOk, OffersOk, LogEntryOk;
    var s' := Execute(c, schedule);
    assert HasSucceeded(s'.pcs[t]) <==> Logged(s'.log, t);
    forall k | 0 <= k < |s'.offers| ensures s'.offers[k].0 != t {
      OffererGoesOn(c, schedule, k);
    }
  }

  /** And it can end so: cancelled after its values were validated, it leaves with the cancellation error. */
  lemma CancelledCommitLeaves(c: Config, schedule: seq<(Caller, Action)>, t: Caller) returns (actions: seq<Action>)
    requires var s := Execute(c, schedule);
      && t in s.pcs && t in c.requests && c.requests[t].Commit? && s.pcs[t].Waiting? && Idle(s) && t !in s.cancelled
      && forall id | id in c.requests[t].values :: Committable(c, s.store, c.requests[t].values, id)
    ensures var s, s' := Execute(c, schedule), Execute(c, schedule + By(t, actions));
      && s'.pcs == s.pcs[t := Done(Failed(Cancelled))] && Idle(s')
      && s'.store == s.store && s'.log == s.log && s'.offers == s.offers
  {
    hide Execute, Committable, Reaches, DoRead, DoWrite;
    var s := Execute(c, schedule);
    var s1 := GetsToPoll(c, s, t);
    var before := Reached(c, s, t, s1);
    actions := before + [Cancel] + [Poll] + [Leave];
    assert actions[..|before| + 2] == before + [Cancel] + [Poll];
    assert (before + [Cancel] + [Poll])[..|before| + 1] == before + [Cancel];
    assert (before + [Cancel])[..|before|] == before;
    assert Run(c, s, t, before + [Cancel]) == Do(c, s1, t, Cancel);
    var s2 := Do(c, Do(c, s1, t, Cancel), t, Poll);
    assert Run(c, s, t, before + [Cancel] + [Poll]) == s2;
    assert Run(c, s, t, actions) == Do(c, s2, t, Leave);
    ExecuteBy(c, schedule, t, actions);
  }
}
