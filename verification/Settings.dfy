/**
  The settings store and its mutators, one call at a time.  The functions say what a commit, a reset
  and a registration do to a store; the provider's methods are proved to do exactly that.
 */
module Settings {
  import opened Wrappers
  import opened SettingNormalization
  import opened Splitting

  /** `info` stands for labels, options, file selection and flags, which no mutator inspects. */
  datatype Setting = Setting(id: string, kind: SettingType, multiple: bool, value: Val, default_: Val, info: int)
  {
    function Form(): Shape {
      Shape(kind, multiple, default_, value)
    }
  }

  /** A value is normalised against the setting's own type, default and held value. */
  lemma FormShowsSetting(s: Setting)
    ensures s.Form().kind == s.kind && s.Form().multiple == s.multiple
    ensures s.Form().default_ == s.default_ && s.Form().current == s.value
  {}

  datatype Category = Category(id: string, settings: map<string, Setting>, info: int)

  type Store = map<string, Category>

  /** A category and a setting key. */
  type Target = (string, string)

  // ---------- setting IDs ----------

  function ParseSettingID(pluginID: string, id: string): Option<Target> {
    if pluginID != "" then Some(("plugin", id))
    else
      var parts := Split(id, '.');
      if |parts| != 2 || parts[0] == "" || parts[1] == "" then None else Some((parts[0], parts[1]))
  }

  /** The key under which a target's value is persisted. */
  function PayloadKey(t: Target): string {
    t.0 + "." + t.1
  }

  /** Outside plugin mode an ID is two nonempty parts with one dot between; in plugin mode any name will do. */
  lemma IDsAreAccepted(pluginID: string, id: string, t: Target)
    ensures ParseSettingID(pluginID, id) == Some(t) <==>
      if pluginID != "" then t == ("plugin", id)
      else id == t.0 + "." + t.1 && t.0 != "" && t.1 != "" && '.' !in t.0 && '.' !in t.1
  {
    if pluginID == "" {
      var parts := [t.0, t.1];
      assert parts[1..] == [t.1];
      assert Join(parts, '.') == t.0 + "." + t.1;
      SplitInvertsJoin(id, parts, '.');
      assert MarkFree(parts, '.') <==> '.' !in t.0 && '.' !in t.1;
      if ParseSettingID(pluginID, id) == Some(t) {
        assert Split(id, '.') == parts;
      }
    }
  }

  /** Outside plugin mode the persisted key is the requested ID; in plugin mode the category is prefixed. */
  lemma PayloadKeyOfID(pluginID: string, id: string)
    requires ParseSettingID(pluginID, id).Some?
    ensures PayloadKey(ParseSettingID(pluginID, id).value) == if pluginID == "" then id else "plugin." + id
  {
    if pluginID == "" {
      SplitThenJoin(id, '.');
      var parts := Split(id, '.');
      assert parts[1..] == [parts[1]];
    }
  }

  /** Distinct IDs never share a target or a persisted key, in either mode. */
  lemma IDsAreInjective(pluginID: string, a: string, b: string)
    requires ParseSettingID(pluginID, a).Some? && ParseSettingID(pluginID, b).Some?
    requires PayloadKey(ParseSettingID(pluginID, a).value) == PayloadKey(ParseSettingID(pluginID, b).value)
    ensures a == b
  {
    PayloadKeyOfID(pluginID, a);
    PayloadKeyOfID(pluginID, b);
    if pluginID != "" {
      assert a == ("plugin." + a)[7..] == ("plugin." + b)[7..] == b;
    }
  }

  // ---------- reading ----------

  predicate Has(store: Store, t: Target) {
    t.0 in store && t.1 in store[t.0].settings
  }

  function At(store: Store, t: Target): Setting
    requires Has(store, t)
  {
    store[t.0].settings[t.1]
  }

  datatype Error = InvalidSettingID | SettingNotFound | TypeMismatch | Rejected | Cancelled | PersistFailed

  datatype Result<+T> = Ok(value: T) | Err(error: Error)

  function GetSetting(store: Store, pluginID: string, id: string): Result<Setting> {
    var t := ParseSettingID(pluginID, id);
    if t.None? then Err(InvalidSettingID)
    else if !Has(store, t.value) then Err(SettingNotFound)
    else Ok(At(store, t.value))
  }

  /** A known setting is found under its ID, whatever else the store holds, and nothing is found under others. */
  lemma SettingsAreFound(store: Store, pluginID: string, id: string)
    ensures match GetSetting(store, pluginID, id)
      case Ok(s) => exists t: Target ::
        && ParseSettingID(pluginID, id) == Some(t)
        && t.0 in store && t.1 in store[t.0].settings && store[t.0].settings[t.1] == s
      case Err(e) =>
        || (e == InvalidSettingID && forall t: Target :: ParseSettingID(pluginID, id) != Some(t))
        || (e == SettingNotFound && exists t: Target ::
              ParseSettingID(pluginID, id) == Some(t) && (t.0 in store ==> t.1 !in store[t.0].settings))
  {
    hide ParseSettingID;
    var t := ParseSettingID(pluginID, id);
    if t.Some? {
      assert t == Some(t.value);
    }
  }

  // ---------- what each mutator does to a store ----------

  datatype Mutation =
    | SetValues(changes: map<Target, Val>)
    | ResetValue(target: Target)
    | Register(category: string, settings: seq<Setting>)

  /** Only the values of the named settings change; everything else in the store is untouched. */
  function WithValues(store: Store, changes: map<Target, Val>): Store {
    map c | c in store :: store[c].(settings := SettingsWithValues(c, store[c].settings, changes))
  }

  function SettingsWithValues(c: string, settings: map<string, Setting>, changes: map<Target, Val>): map<string, Setting> {
    map k | k in settings :: if (c, k) in changes then settings[k].(value := changes[(c, k)]) else settings[k]
  }

  /** A registered setting starts at its default, unless one of its type is there: then it keeps that value. */
  function Registered(existing: map<string, Setting>, s: Setting): Setting {
    if s.id !in existing then s.(value := s.default_)
    else if existing[s.id].kind != s.kind then s.(value := s.default_)
    else s.(value := existing[s.id].value)
  }

  function RegisterAll(existing: map<string, Setting>, settings: seq<Setting>): map<string, Setting> {
    if settings == [] then existing
    else
      var before := RegisterAll(existing, settings[..|settings| - 1]);
      var s := settings[|settings| - 1];
      before[s.id := Registered(before, s)]
  }

  function FoundCategory(store: Store, category: string): Category {
    if category in store then store[category] else Category(category, map[], 0)
  }

  function Apply(store: Store, m: Mutation): Store {
    match m
    case SetValues(changes) => WithValues(store, changes)
    case ResetValue(t) =>
      if Has(store, t) then WithValues(store, map[t := At(store, t).default_]) else store
    case Register(category, settings) =>
      var found := FoundCategory(store, category);
      store[category := found.(settings := RegisterAll(found.settings, settings))]
  }

  /** One publication step: the whole setting record is overwritten. */
  function Publish(store: Store, t: Target, s: Setting): Store
    requires Has(store, t)
  {
    store[t.0 := store[t.0].(settings := store[t.0].settings[t.1 := s])]
  }

  /** Overwriting a record read from `base` changes only its value, if the rest still equals `base`. */
  lemma PublishSetsOneValue(base: Store, changes: map<Target, Val>, t: Target, v: Val)
    requires Has(base, t)
    ensures Has(WithValues(base, changes), t)
    ensures Publish(WithValues(base, changes), t, At(base, t).(value := v)) == WithValues(base, changes[t := v])
  {
    hide WithValues, SettingsWithValues;
    WithValuesAt(base, changes, t.0);
    OneMoreValue(t.0, base[t.0].settings, changes, t, v);
    var got, want := Publish(WithValues(base, changes), t, At(base, t).(value := v)), WithValues(base, changes[t := v]);
    WithValuesAt(base, changes[t := v], t.0);
    forall c | c in base && c != t.0 ensures got[c] == want[c] {
      WithValuesAt(base, changes, c);
      WithValuesAt(base, changes[t := v], c);
      OneMoreValue(c, base[c].settings, changes, t, v);
    }
    assert got.Keys == want.Keys;
  }

  lemma WithValuesAt(store: Store, changes: map<Target, Val>, c: string)
    requires c in store
    ensures WithValues(store, changes).Keys == store.Keys
    ensures WithValues(store, changes)[c] == store[c].(settings := SettingsWithValues(c, store[c].settings, changes))
    ensures SettingsWithValues(c, store[c].settings, changes).Keys == store[c].settings.Keys
  {}

  lemma OneMoreValue(c: string, settings: map<string, Setting>, changes: map<Target, Val>, t: Target, v: Val)
    ensures c != t.0 ==> SettingsWithValues(c, settings, changes[t := v]) == SettingsWithValues(c, settings, changes)
    ensures c == t.0 && t.1 in settings ==>
      SettingsWithValues(c, settings, changes[t := v])
      == SettingsWithValues(c, settings, changes)[t.1 := settings[t.1].(value := v)]
  {
    forall k | k in settings ensures (c, k) == t <==> c == t.0 && k == t.1 {}
  }

  lemma NoChanges(store: Store)
    ensures WithValues(store, map[]) == store
  {
    var got := WithValues(store, map[]);
    forall c | c in store ensures got[c] == store[c] {
      assert got[c].settings == store[c].settings;
    }
  }

  // ---------- commits ----------

  /** One requested change: the record read for it, later with its normalised value. */
  datatype Entry = Entry(id: string, target: Target, setting: Setting)

  /** The entry was read from `base` for one of the requested IDs. */
  ghost predicate Prepared(pluginID: string, values: map<string, Val>, base: Store, e: Entry) {
    && e.id in values && ParseSettingID(pluginID, e.id) == Some(e.target)
    && Has(base, e.target) && e.setting == At(base, e.target)
  }

  /** The entry holds that record with its value replaced by the normalised request. */
  ghost predicate Normalized(p: Platform, pluginID: string, values: map<string, Val>, base: Store, e: Entry) {
    && e.id in values && ParseSettingID(pluginID, e.id) == Some(e.target)
    && Has(base, e.target) && e.setting == At(base, e.target).(value := e.setting.value)
    && NormalizeValue(p, At(base, e.target).Form(), values[e.id]) == Some(e.setting.value)
  }

  function ChangesOf(entries: seq<Entry>): map<Target, Val> {
    if entries == [] then map[]
    else
      var e := entries[|entries| - 1];
      ChangesOf(entries[..|entries| - 1])[e.target := e.setting.value]
  }

  function PayloadOf(entries: seq<Entry>): map<string, Val> {
    if entries == [] then map[]
    else
      var e := entries[|entries| - 1];
      PayloadOf(entries[..|entries| - 1])[PayloadKey(e.target) := e.setting.value]
  }

  /** Every requested ID has exactly one entry. */
  ghost predicate Covers(values: map<string, Val>, entries: seq<Entry>) {
    && |entries| == |values|
    && (forall id | id in values :: HasID(entries, id))
  }

  ghost predicate HasID(entries: seq<Entry>, id: string) {
    exists i :: 0 <= i < |entries| && entries[i].id == id
  }

  ghost predicate AllNormalized(
    p: Platform, pluginID: string, values: map<string, Val>, base: Store, entries: seq<Entry>)
  {
    forall i | 0 <= i < |entries| :: Normalized(p, pluginID, values, base, entries[i])
  }

  /** A requested ID names a setting of the store, and its change is the normalised request. */
  ghost predicate IDMet(
    p: Platform, pluginID: string, values: map<string, Val>, base: Store, changes: map<Target, Val>, id: string)
    requires id in values
  {
    var t := ParseSettingID(pluginID, id);
    && t.Some? && Has(base, t.value) && t.value in changes
    && NormalizeValue(p, At(base, t.value).Form(), values[id]) == Some(changes[t.value])
  }

  ghost predicate TargetRequested(pluginID: string, values: map<string, Val>, t: Target) {
    exists id :: id in values && ParseSettingID(pluginID, id) == Some(t)
  }

  /** What a request asks of a store, independent of any order. */
  ghost predicate Requested(
    p: Platform, pluginID: string, values: map<string, Val>, base: Store, changes: map<Target, Val>)
  {
    && (forall id | id in values :: IDMet(p, pluginID, values, base, changes, id))
    && (forall t | t in changes :: TargetRequested(pluginID, values, t))
  }

  ghost predicate IDPersisted(pluginID: string, changes: map<Target, Val>, payload: map<string, Val>, id: string) {
    var t := ParseSettingID(pluginID, id);
    && t.Some? && t.value in changes && PayloadKey(t.value) in payload
    && payload[PayloadKey(t.value)] == changes[t.value]
  }

  ghost predicate KeyRequested(pluginID: string, values: map<string, Val>, k: string) {
    exists id :: id in values && ParseSettingID(pluginID, id).Some?
              && PayloadKey(ParseSettingID(pluginID, id).value) == k
  }

  /** The persisted map has exactly one key for each requested ID, with the value that is published. */
  ghost predicate Persists(pluginID: string, values: map<string, Val>, changes: map<Target, Val>, payload: map<string, Val>) {
    && |payload| == |values|
    && (forall id | id in values :: IDPersisted(pluginID, changes, payload, id))
    && (forall k | k in payload :: KeyRequested(pluginID, values, k))
  }

  /** An entry's value is both published and persisted. */
  predicate Recorded(e: Entry, changes: map<Target, Val>, payload: map<string, Val>) {
    && e.target in changes && changes[e.target] == e.setting.value
    && PayloadKey(e.target) in payload && payload[PayloadKey(e.target)] == e.setting.value
  }

  lemma SameKeySameEntry(
    p: Platform, pluginID: string, values: map<string, Val>, base: Store, d: Entry, e: Entry)
    requires Normalized(p, pluginID, values, base, d) && Normalized(p, pluginID, values, base, e)
    requires PayloadKey(d.target) == PayloadKey(e.target)
    ensures d.target == e.target && d.setting.value == e.setting.value
  {
    hide NormalizeValue;
    IDsAreInjective(pluginID, d.id, e.id);
  }

  /** Neither IDs nor targets collide, so no entry's value is overwritten by another's. */
  lemma {:induction false} EntriesAreRecorded(
    p: Platform, pluginID: string, values: map<string, Val>, base: Store, entries: seq<Entry>, i: nat)
    requires AllNormalized(p, pluginID, values, base, entries) && i < |entries|
    ensures Recorded(entries[i], ChangesOf(entries), PayloadOf(entries))
  {
    hide Normalized, PayloadKey;
    var front, e := entries[..|entries| - 1], entries[|entries| - 1];
    assert Normalized(p, pluginID, values, base, e) && Normalized(p, pluginID, values, base, entries[i]);
    if i < |front| {
      assert front[i] == entries[i];
      EntriesAreRecorded(p, pluginID, values, base, front, i);
      if PayloadKey(entries[i].target) == PayloadKey(e.target) {
        SameKeySameEntry(p, pluginID, values, base, entries[i], e);
      }
    }
  }

  lemma {:induction false} OnlyEntriesAreRecorded(entries: seq<Entry>)
    ensures forall t | t in ChangesOf(entries) :: exists i :: 0 <= i < |entries| && entries[i].target == t
    ensures forall k | k in PayloadOf(entries) :: exists i :: 0 <= i < |entries| && PayloadKey(entries[i].target) == k
  {
    hide PayloadKey;
    if entries != [] {
      var front := entries[..|entries| - 1];
      assert forall i | 0 <= i < |front| :: front[i] == entries[i];
      OnlyEntriesAreRecorded(front);
    }
  }

  lemma RequestIsMet(
    p: Platform, pluginID: string, values: map<string, Val>, base: Store, entries: seq<Entry>)
    requires AllNormalized(p, pluginID, values, base, entries) && Covers(values, entries)
    ensures Requested(p, pluginID, values, base, ChangesOf(entries))
    ensures Persists(pluginID, values, ChangesOf(entries), PayloadOf(entries))
  {
    hide IDMet, IDPersisted, TargetRequested, KeyRequested, ChangesOf, PayloadOf, Normalized;
    var changes, payload := ChangesOf(entries), PayloadOf(entries);
    forall id | id in values
      ensures IDMet(p, pluginID, values, base, changes, id) && IDPersisted(pluginID, changes, payload, id)
    {
      assert HasID(entries, id);
      var i :| 0 <= i < |entries| && entries[i].id == id;
      EntryIsMet(p, pluginID, values, base, entries, i);
    }
    EntriesAreRequested(p, pluginID, values, base, entries);
    PayloadSize(pluginID, values, changes, payload);
  }

  lemma EntriesAreRequested(
    p: Platform, pluginID: string, values: map<string, Val>, base: Store, entries: seq<Entry>)
    requires AllNormalized(p, pluginID, values, base, entries)
    ensures forall t | t in ChangesOf(entries) :: TargetRequested(pluginID, values, t)
    ensures forall k | k in PayloadOf(entries) :: KeyRequested(pluginID, values, k)
  {
    hide NormalizeValue, ParseSettingID, PayloadKey, ChangesOf, PayloadOf;
    OnlyEntriesAreRecorded(entries);
    forall t | t in ChangesOf(entries) ensures TargetRequested(pluginID, values, t) {
      var i :| 0 <= i < |entries| && entries[i].target == t;
      assert Normalized(p, pluginID, values, base, entries[i]);
    }
    forall k | k in PayloadOf(entries) ensures KeyRequested(pluginID, values, k) {
      var i :| 0 <= i < |entries| && PayloadKey(entries[i].target) == k;
      assert Normalized(p, pluginID, values, base, entries[i]);
    }
  }

  lemma EntryIsMet(
    p: Platform, pluginID: string, values: map<string, Val>, base: Store, entries: seq<Entry>, i: nat)
    requires AllNormalized(p, pluginID, values, base, entries) && i < |entries|
    ensures entries[i].id in values
    ensures IDMet(p, pluginID, values, base, ChangesOf(entries), entries[i].id)
    ensures IDPersisted(pluginID, ChangesOf(entries), PayloadOf(entries), entries[i].id)
  {
    hide NormalizeValue, ParseSettingID, ChangesOf, PayloadOf;
    assert Normalized(p, pluginID, values, base, entries[i]);
    EntriesAreRecorded(p, pluginID, values, base, entries, i);
  }

  /** A map keyed injectively by the requested IDs has as many keys as there are IDs. */
  lemma {:induction false} PayloadSize(
    pluginID: string, values: map<string, Val>, changes: map<Target, Val>, payload: map<string, Val>)
    requires forall id | id in values :: IDPersisted(pluginID, changes, payload, id)
    requires forall k | k in payload :: KeyRequested(pluginID, values, k)
    ensures |payload| == |values|
    decreases |values|
  {
    hide ParseSettingID, PayloadKey;
    if values == map[] {
      assert payload == map[];
    } else {
      var id :| id in values;
      assert IDPersisted(pluginID, changes, payload, id);
      var k := PayloadKey(ParseSettingID(pluginID, id).value);
      var values', payload' := values - {id}, payload - {k};
      assert |values'| == |values| - 1 && |payload'| == |payload| - 1;
      forall j | j in values' ensures IDPersisted(pluginID, changes, payload', j) {
        assert IDPersisted(pluginID, changes, payload, j);
        if PayloadKey(ParseSettingID(pluginID, j).value) == k {
          IDsAreInjective(pluginID, id, j);
        }
      }
      forall h | h in payload' ensures KeyRequested(pluginID, values', h) {
        assert KeyRequested(pluginID, values, h);
      }
      PayloadSize(pluginID, values', changes, payload');
    }
  }

  // ---------- the provider, one call at a time ----------

  /** Why a requested ID cannot be committed, if it cannot; `validate` is the setting's own validator. */
  function Fault(
    p: Platform, pluginID: string, store: Store, validate: (Setting, Val) -> bool, id: string, v: Val): Option<Error>
  {
    var read := GetSetting(store, pluginID, id);
    if read.Err? then Some(read.error)
    else
      var normalized := NormalizeValue(p, read.value.Form(), v);
      if normalized.None? then Some(TypeMismatch)
      else if !validate(read.value, normalized.value) then Some(Rejected)
      else None
  }

  function CategoriesOf(changes: map<Target, Val>): set<string> {
    set t | t in changes :: t.0
  }

  ghost predicate HasFault(
    p: Platform, pluginID: string, store: Store, validate: (Setting, Val) -> bool, values: map<string, Val>, e: Error)
  {
    exists id :: id in values && Fault(p, pluginID, store, validate, id, values[id]) == Some(e)
  }

  class Provider {
    const pluginID: string
    var store: Store

    constructor (pluginID: string, store: Store)
      ensures this.pluginID == pluginID && this.store == store
    {
      this.pluginID, this.store := pluginID, store;
    }

    /**
      The context is polled when the gate is taken and again just before persisting; `durable` says
      whether there is a persist callback and `persistOk` what it answers.  `offered` is the map it was
      called with.
     */
    method CommitSettings(
      p: Platform, values: map<string, Val>, validate: (Setting, Val) -> bool,
      cancelledAtGate: bool, cancelledBeforePersist: bool, durable: bool, persistOk: bool)
      returns (err: Option<Error>, changed: set<string>, offered: Option<map<string, Val>>,
               ghost changes: map<Target, Val>)
      modifies this
      ensures err.None? ==>
        && !cancelledAtGate && !cancelledBeforePersist && (durable ==> persistOk)
        && (forall id | id in values :: Fault(p, pluginID, old(store), validate, id, values[id]).None?)
        && Requested(p, pluginID, values, old(store), changes)
        && store == WithValues(old(store), changes)
        && changed == CategoriesOf(changes)
      ensures err.Some? ==> store == old(store) && changed == {}
      ensures offered.Some? ==> durable && Requested(p, pluginID, values, old(store), changes)
      ensures offered.Some? ==> Persists(pluginID, values, changes, offered.value)
      ensures durable && err.None? ==> offered.Some?
      ensures err == Some(PersistFailed) <==> offered.Some? && !persistOk
      ensures cancelledAtGate ==> err == Some(Cancelled)
      ensures err == Some(Cancelled) ==> offered.None? && (cancelledAtGate || cancelledBeforePersist)
      ensures err == Some(Cancelled) && !cancelledAtGate ==>
        forall id | id in values :: Fault(p, pluginID, old(store), validate, id, values[id]).None?
      ensures err.Some? && err != Some(Cancelled) && err != Some(PersistFailed) ==>
        HasFault(p, pluginID, old(store), validate, values, err.value)
    {
      changed, offered, changes := {}, None, map[];
      if cancelledAtGate {
        return Some(Cancelled), changed, offered, changes;
      }
      hide NormalizeValue, ParseSettingID, Requested, Persists, Fault, AllNormalized, WithValues, Covers, DistinctIDs,
           HasFault, ChangesOf, PayloadOf, CategoriesOf;
      var entries, normalized;
      entries, err := Prepare(values);
      if err.Some? {
        FaultOfPreparation(p, pluginID, store, validate, values, err.value);
        return;
      }
      entries, normalized, err := Normalize(p, values, validate, entries);
      if err.Some? {
        return;
      }
      RequestIsMet(p, pluginID, values, store, entries);
      changes := ChangesOf(entries);
      if cancelledBeforePersist {
        return Some(Cancelled), changed, offered, changes;
      }
      if durable {
        offered := Some(normalized);
        if !persistOk {
          return Some(PersistFailed), changed, offered, changes;
        }
      }
      changed := PublishAll(p, values, entries);
    }

    /** Reads a record for every requested ID; the IDs come in any order. */
    method Prepare(values: map<string, Val>) returns (entries: seq<Entry>, err: Option<Error>)
      ensures err.None? ==> Covers(values, entries) && DistinctIDs(entries)
      ensures err.None? ==> forall i | 0 <= i < |entries| :: Prepared(pluginID, values, store, entries[i])
      ensures err.Some? ==> exists id :: id in values && GetSetting(store, pluginID, id) == Err(err.value)
    {
      hide ParseSettingID, HasID;
      entries := [];
      var todo := values.Keys;
      while todo != {}
        invariant todo <= values.Keys && |entries| + |todo| == |values|
        invariant forall i | 0 <= i < |entries| :: Prepared(pluginID, values, store, entries[i])
        invariant forall i | 0 <= i < |entries| :: entries[i].id !in todo
        invariant forall id | id in values && id !in todo :: HasID(entries, id)
        invariant DistinctIDs(entries)
        decreases todo
      {
        var id :| id in todo;
        var read := GetSetting(store, pluginID, id);
        if read.Err? {
          return entries, Some(read.error);
        }
        var t := ParseSettingID(pluginID, id);
        ghost var before := entries;
        entries := entries + [Entry(id, t.value, read.value)];
        todo := todo - {id};
        forall j | j in values && j !in todo ensures HasID(entries, j) {
          HasIDGrows(before, entries[|before|], j);
        }
      }
      return entries, None;
    }

    /** Normalises and validates each entry in place, and collects what is to be persisted. */
    method Normalize(
      p: Platform, values: map<string, Val>, validate: (Setting, Val) -> bool, prepared: seq<Entry>)
      returns (entries: seq<Entry>, normalized: map<string, Val>, err: Option<Error>)
      requires Covers(values, prepared)
      requires forall i | 0 <= i < |prepared| :: Prepared(pluginID, values, store, prepared[i])
      ensures err.None? ==> AllNormalized(p, pluginID, values, store, entries) && Covers(values, entries)
      ensures err.None? ==> normalized == PayloadOf(entries)
      ensures err.None? ==> forall id | id in values :: Fault(p, pluginID, store, validate, id, values[id]).None?
      ensures err.Some? ==> !err.value.Cancelled? && !err.value.PersistFailed?
      ensures err.Some? ==> HasFault(p, pluginID, store, validate, values, err.value)
    {
      hide NormalizeValue, Normalized, Fault, PayloadKey, PayloadOf, HasID, Covers, HasFault;
      entries, normalized := [], map[];
      NothingPersisted();
      for n := 0 to |prepared|
        invariant |entries| == n && normalized == PayloadOf(entries)
        invariant forall i | 0 <= i < n :: entries[i].id == prepared[i].id
        invariant AllNormalized(p, pluginID, values, store, entries)
        invariant forall i | 0 <= i < n ::
          entries[i].id in values && Fault(p, pluginID, store, validate, entries[i].id, values[entries[i].id]).None?
      {
        var e := prepared[n];
        assert Prepared(pluginID, values, store, e) && e.id in values;
        PreparedFault(p, pluginID, values, store, validate, e);
        var v := NormalizeValue(p, e.setting.Form(), values[e.id]);
        if v.None? {
          FaultFound(p, pluginID, store, validate, values, e.id);
          return entries, normalized, Some(TypeMismatch);
        }
        if !validate(e.setting, v.value) {
          FaultFound(p, pluginID, store, validate, values, e.id);
          return entries, normalized, Some(Rejected);
        }
        var done := e.(setting := e.setting.(value := v.value));
        PreparedNormalizes(p, pluginID, values, store, e, v.value);
        ghost var before := entries;
        entries := entries + [done];
        PayloadGrows(before, done);
        normalized := normalized[PayloadKey(done.target) := done.setting.value];
      }
      CoversByIDs(values, prepared, entries);
      NoFaultAtAll(p, pluginID, values, store, validate, entries);
      return entries, normalized, None;
    }

    /** Overwrites one whole record after another. */
    method PublishAll(p: Platform, values: map<string, Val>, entries: seq<Entry>) returns (changed: set<string>)
      requires AllNormalized(p, pluginID, values, store, entries)
      modifies this
      ensures store == WithValues(old(store), ChangesOf(entries))
      ensures changed == CategoriesOf(ChangesOf(entries))
    {
      hide NormalizeValue, ParseSettingID, WithValues;
      changed := {};
      NoChanges(store);
      for n := 0 to |entries|
        invariant store == WithValues(old(store), ChangesOf(entries[..n]))
        invariant changed == CategoriesOf(ChangesOf(entries[..n]))
      {
        var e := entries[n];
        assert Normalized(p, pluginID, values, old(store), e);
        PublishSetsOneValue(old(store), ChangesOf(entries[..n]), e.target, e.setting.value);
        assert entries[..n + 1][..n] == entries[..n];
        store := Publish(store, e.target, e.setting);
        changed := changed + {e.target.0};
      }
      assert entries[..|entries|] == entries;
    }

    method ResetSetting(id: string) returns (err: Option<Error>)
      modifies this
      ensures err == match GetSetting(old(store), pluginID, id) { case Err(e) => Some(e) case Ok(_) => None }
      ensures store == if err.Some? then old(store)
                       else Apply(old(store), ResetValue(ParseSettingID(pluginID, id).value))
    {
      var t := ParseSettingID(pluginID, id);
      if t.None? {
        return Some(InvalidSettingID);
      }
      if !Has(store, t.value) {
        return Some(SettingNotFound);
      }
      hide ParseSettingID, WithValues;
      var setting := At(store, t.value);
      NoChanges(store);
      PublishSetsOneValue(store, map[], t.value, setting.default_);
      store := Publish(store, t.value, setting.(value := setting.default_));
      return None;
    }

    method RegisterSettings(category: string, settings: seq<Setting>)
      modifies this
      ensures store == Apply(old(store), Register(category, settings))
    {
      var found := FoundCategory(store, category);
      ghost var existing := found.settings;
      for n := 0 to |settings|
        invariant found == FoundCategory(old(store), category).(settings := RegisterAll(existing, settings[..n]))
        invariant store == old(store)
      {
        var setting := settings[n];
        assert settings[..n + 1][..n] == settings[..n];
        if setting.id !in found.settings {
          setting := setting.(value := setting.default_);
        } else if found.settings[setting.id].kind != setting.kind {
          setting := setting.(value := setting.default_);
        } else {
          setting := setting.(value := found.settings[setting.id].value);
        }
        found := found.(settings := found.settings[setting.id := setting]);
      }
      assert settings[..|settings|] == settings;
      store := store[category := found];
    }
  }

  ghost predicate DistinctIDs(entries: seq<Entry>) {
    forall i, j | 0 <= i < j < |entries| :: entries[i].id != entries[j].id
  }

  lemma HasIDGrows(before: seq<Entry>, e: Entry, id: string)
    ensures HasID(before, id) || e.id == id ==> HasID(before + [e], id)
  {
    if i :| 0 <= i < |before| && before[i].id == id {
      assert (before + [e])[i].id == id;
    }
    assert (before + [e])[|before|] == e;
  }

  /** The fault of a prepared entry is decided by its normalisation and its validator. */
  lemma PreparedFault(
    p: Platform, pluginID: string, values: map<string, Val>, store: Store, validate: (Setting, Val) -> bool, e: Entry)
    requires Prepared(pluginID, values, store, e)
    ensures var v := NormalizeValue(p, e.setting.Form(), values[e.id]);
      Fault(p, pluginID, store, validate, e.id, values[e.id])
      == if v.None? then Some(TypeMismatch) else if !validate(e.setting, v.value) then Some(Rejected) else None
  {
    hide NormalizeValue, ParseSettingID;
  }

  lemma NoFaultAtAll(
    p: Platform, pluginID: string, values: map<string, Val>, store: Store, validate: (Setting, Val) -> bool,
    entries: seq<Entry>)
    requires Covers(values, entries)
    requires forall i | 0 <= i < |entries| ::
      entries[i].id in values && Fault(p, pluginID, store, validate, entries[i].id, values[entries[i].id]).None?
    ensures forall id | id in values :: Fault(p, pluginID, store, validate, id, values[id]).None?
  {
    hide Fault;
    forall id | id in values ensures Fault(p, pluginID, store, validate, id, values[id]).None? {
      assert HasID(entries, id);
      var i :| 0 <= i < |entries| && entries[i].id == id;
    }
  }

  lemma NothingPersisted()
    ensures PayloadOf([]) == map[]
  {}

  lemma PayloadGrows(entries: seq<Entry>, e: Entry)
    ensures PayloadOf(entries + [e]) == PayloadOf(entries)[PayloadKey(e.target) := e.setting.value]
  {
    assert (entries + [e])[..|entries|] == entries;
  }

  lemma FaultFound(
    p: Platform, pluginID: string, store: Store, validate: (Setting, Val) -> bool, values: map<string, Val>, id: string)
    requires id in values && Fault(p, pluginID, store, validate, id, values[id]).Some?
    ensures HasFault(p, pluginID, store, validate, values, Fault(p, pluginID, store, validate, id, values[id]).value)
  {}

  lemma PreparedNormalizes(p: Platform, pluginID: string, values: map<string, Val>, store: Store, e: Entry, v: Val)
    requires Prepared(pluginID, values, store, e)
    requires NormalizeValue(p, e.setting.Form(), values[e.id]) == Some(v)
    ensures Normalized(p, pluginID, values, store, e.(setting := e.setting.(value := v)))
  {
    hide NormalizeValue, ParseSettingID;
  }

  lemma CoversByIDs(values: map<string, Val>, prepared: seq<Entry>, entries: seq<Entry>)
    requires Covers(values, prepared) && |entries| == |prepared|
    requires forall i | 0 <= i < |entries| :: entries[i].id == prepared[i].id
    ensures Covers(values, entries)
  {
    forall id | id in values ensures HasID(entries, id) {
      assert HasID(prepared, id);
      var i :| 0 <= i < |prepared| && prepared[i].id == id;
      assert entries[i].id == id;
    }
  }

  lemma FaultOfPreparation(
    p: Platform, pluginID: string, store: Store, validate: (Setting, Val) -> bool, values: map<string, Val>, e: Error)
    requires exists id :: id in values && GetSetting(store, pluginID, id) == Err(e)
    ensures HasFault(p, pluginID, store, validate, values, e)
    ensures !e.Cancelled? && !e.PersistFailed?
  {
    hide NormalizeValue, ParseSettingID;
    var id :| id in values && GetSetting(store, pluginID, id) == Err(e);
    assert Fault(p, pluginID, store, validate, id, values[id]) == Some(e);
  }

  /** Registering again keeps the values of settings whose type has not changed. */
  lemma {:induction false} RegisterKeepsValues(existing: map<string, Setting>, settings: seq<Setting>, k: string)
    requires k in existing
    requires forall i | 0 <= i < |settings| && settings[i].id == k :: settings[i].kind == existing[k].kind
    ensures k in RegisterAll(existing, settings)
    ensures RegisterAll(existing, settings)[k].value == existing[k].value
    ensures RegisterAll(existing, settings)[k].kind == existing[k].kind
  {
    if settings != [] {
      var front := settings[..|settings| - 1];
      assert forall i | 0 <= i < |front| :: front[i] == settings[i];
      RegisterKeepsValues(existing, front, k);
    }
  }

  /** Setting values changes the named values and nothing else, in any record or any category. */
  lemma ValuesAreSet(store: Store, changes: map<Target, Val>)
    ensures var after := Apply(store, SetValues(changes));
      && after.Keys == store.Keys
      && forall c | c in store ::
           && after[c].(settings := store[c].settings) == store[c]
           && after[c].settings.Keys == store[c].settings.Keys
           && forall k | k in store[c].settings ::
                after[c].settings[k]
                == store[c].settings[k].(value := if (c, k) in changes then changes[(c, k)] else store[c].settings[k].value)
  {
    forall c | c in store
      ensures c in WithValues(store, changes) && WithValues(store, changes)[c].(settings := store[c].settings) == store[c]
    {
      WithValuesAt(store, changes, c);
    }
  }

  /** A reset setting has its default; everything else stays. */
  lemma ResetTakesDefault(store: Store, c: string, k: string)
    ensures var after := Apply(store, ResetValue((c, k)));
      if c in store && k in store[c].settings then
        var s := store[c].settings[k];
        after == store[c := store[c].(settings := store[c].settings[k := s.(value := s.default_)])]
      else after == store
  {
    var t := (c, k);
    if Has(store, t) {
      hide WithValues;
      NoChanges(store);
      PublishSetsOneValue(store, map[], t, At(store, t).default_);
    }
  }

  /** Registering touches one category, creating it if need be, and there only the IDs that are registered. */
  lemma RegistrationIsLocal(store: Store, category: string, settings: seq<Setting>, c: string, k: string)
    ensures var after := Apply(store, Register(category, settings));
      && after.Keys == store.Keys + {category}
      && (c in store && c != category ==> after[c] == store[c])
      && (category in store ==> after[category].(settings := store[category].settings) == store[category])
      && (category !in store ==> after[category].id == category)
      && (k in after[category].settings <==>
            (category in store && k in store[category].settings) || exists i :: 0 <= i < |settings| && settings[i].id == k)
      && (category in store && k in store[category].settings
          && (forall i | 0 <= i < |settings| :: settings[i].id != k) ==>
            after[category].settings[k] == store[category].settings[k])
  {
    OthersUnregistered(FoundCategory(store, category).settings, settings, k);
  }

  lemma {:induction false} OthersUnregistered(existing: map<string, Setting>, settings: seq<Setting>, k: string)
    ensures k in RegisterAll(existing, settings) <==>
      k in existing || exists i :: 0 <= i < |settings| && settings[i].id == k
    ensures k in existing && (forall i | 0 <= i < |settings| :: settings[i].id != k) ==>
      RegisterAll(existing, settings)[k] == existing[k]
  {
    if settings != [] {
      var front, last := settings[..|settings| - 1], settings[|settings| - 1];
      OthersUnregistered(existing, front, k);
      if i :| 0 <= i < |settings| && settings[i].id == k && last.id != k {
        assert front[i].id == k;
      }
      assert last.id == k ==> settings[|settings| - 1].id == k;
    }
  }

  /**
    The last definition of an ID wins in all but the value.  A new setting, or one whose type is not the
    one held until then, takes its default; any other keeps the value held.
   */
  lemma {:induction false} LastDefinitionWins(existing: map<string, Setting>, settings: seq<Setting>, i: nat)
    requires i < |settings| && forall j | i < j < |settings| :: settings[j].id != settings[i].id
    ensures var d, held, after := settings[i], RegisterAll(existing, settings[..i]), RegisterAll(existing, settings);
      && d.id in after && after[d.id].(value := d.value) == d
      && (d.id !in held || held[d.id].kind != d.kind ==> after[d.id].value == d.default_)
      && (d.id in held && held[d.id].kind == d.kind ==> after[d.id].value == held[d.id].value)
  {
    var front := settings[..|settings| - 1];
    if i < |front| {
      LastDefinitionWins(existing, front, i);
      assert front[..i] == settings[..i];
      assert settings[|front|].id != settings[i].id;
    }
  }

  /** A setting registered once, in a category that does not know it, starts at its default. */
  lemma NewSettingTakesDefault(store: Store, category: string, d: Setting)
    requires category in store ==> d.id !in store[category].settings || store[category].settings[d.id].kind != d.kind
    ensures var after := Apply(store, Register(category, [d]));
      category in after && d.id in after[category].settings && after[category].settings[d.id] == d.(value := d.default_)
  {
    LastDefinitionWins(FoundCategory(store, category).settings, [d], 0);
    assert [d][..0] == [];
  }
}
