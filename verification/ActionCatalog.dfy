/**
  Merging the action descriptors that several registrations declare for one route and type: an ID is
  listed once if all its declarations agree and omitted if they do not, and the list is compacted in place.
 */
module ActionCatalog {

  import opened Wrappers

  /** `encoding` is the descriptor's JSON text, absent when it cannot be marshalled. */
  datatype Descriptor = Descriptor(id: string, encoding: Option<string>)

  /** `None` is a nil list; `valid` is the verdict of the descriptor check on the list. */
  datatype Registration = Registration(actions: Option<seq<Descriptor>>, valid: bool)

  ghost function ActionsOf(r: Registration): seq<Descriptor> {
    if r.actions.None? then [] else r.actions.value
  }

  /** All declarations, registration by registration. */
  ghost function Declared(rs: seq<Registration>): seq<Descriptor> {
    if rs == [] then [] else Declared(rs[..|rs| - 1]) + ActionsOf(rs[|rs| - 1])
  }

  predicate Declares(ds: seq<Descriptor>, id: string) {
    exists i :: 0 <= i < |ds| && ds[i].id == id
  }

  // ---------- what the merge should list ----------

  /** All declarations of this ID have one JSON text; a single declaration agrees with itself. */
  ghost predicate Agreed(ds: seq<Descriptor>, id: string) {
    forall i, j | 0 <= i < j < |ds| && ds[i].id == id && ds[j].id == id ::
      ds[i].encoding.Some? && ds[i].encoding == ds[j].encoding
  }

  ghost predicate IsFirst(ds: seq<Descriptor>, i: nat)
    requires i < |ds|
  {
    forall j | 0 <= j < i :: ds[j].id != ds[i].id
  }

  /** The first declaration of every agreed ID, in the order of those first declarations. */
  ghost function Listed(ds: seq<Descriptor>, n: nat): seq<Descriptor>
    requires n <= |ds|
  {
    if n == 0 then []
    else if IsFirst(ds, n - 1) && Agreed(ds, ds[n - 1].id) then Listed(ds, n - 1) + [ds[n - 1]]
    else Listed(ds, n - 1)
  }

  /** The listing names each agreed ID exactly once and no other. */
  lemma {:induction false} ListedIsCatalogue(ds: seq<Descriptor>, n: nat)
    requires n <= |ds|
    ensures forall i, j | 0 <= i < j < |Listed(ds, n)| :: Listed(ds, n)[i].id != Listed(ds, n)[j].id
    ensures forall i | 0 <= i < |Listed(ds, n)| ::
      Declares(ds[..n], Listed(ds, n)[i].id) && Agreed(ds, Listed(ds, n)[i].id)
    ensures forall id | Declares(ds[..n], id) && Agreed(ds, id) :: Declares(Listed(ds, n), id)
  {
    hide Agreed;
    if n > 0 {
      ListedIsCatalogue(ds, n - 1);
      var front, all := Listed(ds, n - 1), Listed(ds, n);
      assert ds[..n] == ds[..n - 1] + [ds[n - 1]];
      forall i | 0 <= i < |front| ensures Declares(ds[..n], front[i].id) && front[i].id == all[i].id {
        assert Declares(ds[..n - 1], front[i].id);
        var k :| 0 <= k < n - 1 && ds[..n - 1][k].id == front[i].id;
        assert ds[..n][k].id == front[i].id;
      }
      if |all| > |front| {
        forall i | 0 <= i < |front| ensures front[i].id != all[|front|].id {
          assert Declares(ds[..n - 1], front[i].id);
        }
        assert ds[..n][n - 1].id == all[|front|].id;
      }
      forall id | Declares(ds[..n], id) && Agreed(ds, id) ensures Declares(all, id) {
        var k :| 0 <= k < n && ds[..n][k].id == id;
        if Declares(ds[..n - 1], id) {
          var i :| 0 <= i < |front| && front[i].id == id;
          assert all[i].id == id;
        } else {
          assert k == n - 1 && forall j | 0 <= j < n - 1 :: ds[..n - 1][j] == ds[j];
          assert IsFirst(ds, n - 1);
          assert all[|front|].id == id;
        }
      }
    }
  }

  // ---------- what the loops keep ----------

  predicate EqualDescriptors(a: Descriptor, b: Descriptor) {
    a.encoding.Some? && b.encoding.Some? && a.encoding == b.encoding
  }

  /** The first declaration of every ID. */
  function Firsts(ds: seq<Descriptor>): seq<Descriptor> {
    if ds == [] then []
    else
      var front, d := ds[..|ds| - 1], ds[|ds| - 1];
      if Declares(front, d.id) then Firsts(front) else Firsts(front) + [d]
  }

  ghost predicate InConflict(ds: seq<Descriptor>, id: string) {
    exists i, j :: 0 <= i < j < |ds| && ds[i].id == id && ds[j].id == id
                && IsFirst(ds, i) && !EqualDescriptors(ds[i], ds[j])
  }

  /** Comparing with the first declaration is comparing all. */
  lemma ConflictIsDisagreement(ds: seq<Descriptor>, id: string)
    ensures InConflict(ds, id) <==> !Agreed(ds, id)
  {
    if !Agreed(ds, id) {
      var i, j :| 0 <= i < j < |ds| && ds[i].id == id && ds[j].id == id && !EqualDescriptors(ds[i], ds[j]);
      var f := FirstOf(ds, i);
      if EqualDescriptors(ds[f], ds[j]) || f == j {
        assert f < i && !EqualDescriptors(ds[f], ds[i]);
      }
    }
  }

  lemma FirstOf(ds: seq<Descriptor>, i: nat) returns (f: nat)
    requires i < |ds|
    ensures f <= i && ds[f].id == ds[i].id && IsFirst(ds, f)
  {
    if IsFirst(ds, i) {
      f := i;
    } else {
      var j :| 0 <= j < i && ds[j].id == ds[i].id;
      f := FirstOf(ds, j);
    }
  }

  /** What the declarations so far have left in the list, the index and the conflict set. */
  ghost predicate Tracks(
    ds: seq<Descriptor>, out: seq<Descriptor>, positions: map<string, nat>, conflicts: set<string>)
  {
    && out == Firsts(ds)
    && (forall id :: id in positions <==> Declares(ds, id))
    && (forall id | id in positions :: positions[id] < |out| && FirstDeclares(ds, id, out[positions[id]]))
    && (forall id :: id in conflicts <==> InConflict(ds, id))
  }

  ghost predicate FirstDeclares(ds: seq<Descriptor>, id: string, d: Descriptor) {
    exists i :: 0 <= i < |ds| && IsFirst(ds, i) && ds[i] == d && d.id == id
  }

  lemma DeclaresOneMore(ds: seq<Descriptor>, d: Descriptor, id: string)
    ensures Declares(ds + [d], id) <==> Declares(ds, id) || id == d.id
  {
    var all := ds + [d];
    assert all[|ds|] == d && forall i | 0 <= i < |ds| :: all[i] == ds[i];
  }

  lemma FirstsStayFirst(ds: seq<Descriptor>, d: Descriptor)
    ensures forall i | 0 <= i < |ds| :: IsFirst(ds + [d], i) == IsFirst(ds, i)
    ensures IsFirst(ds + [d], |ds|) <==> !Declares(ds, d.id)
  {
    var all := ds + [d];
    assert all[|ds|] == d && forall j | 0 <= j < |ds| :: all[j] == ds[j];
  }

  lemma FirstDeclarationStays(ds: seq<Descriptor>, d: Descriptor, id: string, e: Descriptor)
    requires FirstDeclares(ds, id, e)
    ensures FirstDeclares(ds + [d], id, e)
  {
    FirstsStayFirst(ds, d);
    hide IsFirst;
    var i :| 0 <= i < |ds| && IsFirst(ds, i) && ds[i] == e && e.id == id;
    assert IsFirst(ds + [d], i) && (ds + [d])[i] == e;
  }

  lemma OneMoreDeclaration(ds: seq<Descriptor>, d: Descriptor)
    ensures forall id :: Declares(ds + [d], id) <==> Declares(ds, id) || id == d.id
    ensures Firsts(ds + [d]) == if Declares(ds, d.id) then Firsts(ds) else Firsts(ds) + [d]
    ensures forall id, e | FirstDeclares(ds, id, e) :: FirstDeclares(ds + [d], id, e)
    ensures !Declares(ds, d.id) ==> FirstDeclares(ds + [d], d.id, d)
  {
    hide Declares, IsFirst;
    var all := ds + [d];
    assert all[..|all| - 1] == ds && all[|ds|] == d;
    forall id ensures Declares(all, id) <==> Declares(ds, id) || id == d.id {
      DeclaresOneMore(ds, d, id);
    }
    forall id, e | FirstDeclares(ds, id, e) ensures FirstDeclares(all, id, e) {
      FirstDeclarationStays(ds, d, id, e);
    }
    FirstsStayFirst(ds, d);
  }

  /** A later declaration conflicts exactly when it differs from the first. */
  lemma ConflictsGrow(ds: seq<Descriptor>, d: Descriptor, first: Descriptor, id: string)
    requires Declares(ds, d.id) ==> FirstDeclares(ds, d.id, first)
    ensures InConflict(ds + [d], id) <==>
      InConflict(ds, id) || (id == d.id && Declares(ds, d.id) && !EqualDescriptors(first, d))
  {
    hide EqualDescriptors, Firsts;
    var all := ds + [d];
    FirstsStayFirst(ds, d);
    assert forall j | 0 <= j < |ds| :: all[j] == ds[j];
    if InConflict(ds, id) {
      var i, j :| 0 <= i < j < |ds| && ds[i].id == id && ds[j].id == id
                  && IsFirst(ds, i) && !EqualDescriptors(ds[i], ds[j]);
      assert IsFirst(all, i) && !EqualDescriptors(all[i], all[j]);
    }
    if id == d.id && Declares(ds, d.id) && !EqualDescriptors(first, d) {
      var f :| 0 <= f < |ds| && IsFirst(ds, f) && ds[f] == first && first.id == d.id;
      assert IsFirst(all, f) && !EqualDescriptors(all[f], all[|ds|]);
    }
    if InConflict(all, id) && !InConflict(ds, id) {
      var i, j :| 0 <= i < j < |all| && all[i].id == id && all[j].id == id
                  && IsFirst(all, i) && !EqualDescriptors(all[i], all[j]);
      assert IsFirst(ds, i) && ds[i].id == id;
      assert j == |ds|;
      var f :| 0 <= f < |ds| && IsFirst(ds, f) && ds[f] == first && first.id == d.id;
      assert f == i;
    }
  }

  /** The list without the conflicting IDs. */
  function Without(ds: seq<Descriptor>, conflicts: set<string>): seq<Descriptor> {
    if ds == [] then []
    else
      var front, d := ds[..|ds| - 1], ds[|ds| - 1];
      if d.id in conflicts then Without(front, conflicts) else Without(front, conflicts) + [d]
  }

  lemma WithoutOneMore(ds: seq<Descriptor>, d: Descriptor, conflicts: set<string>)
    ensures Without(ds + [d], conflicts)
         == if d.id in conflicts then Without(ds, conflicts) else Without(ds, conflicts) + [d]
  {
    assert (ds + [d])[..|ds|] == ds;
  }

  lemma NothingListed(conflicts: set<string>)
    ensures Without(Firsts([]), conflicts) == []
  {
  }

  lemma FirstsOneMore(ds: seq<Descriptor>, n: nat)
    requires n < |ds|
    ensures Firsts(ds[..n + 1]) == if IsFirst(ds, n) then Firsts(ds[..n]) + [ds[n]] else Firsts(ds[..n])
  {
    var front := ds[..n];
    assert ds[..n + 1][..n] == front && ds[..n + 1][n] == ds[n];
    assert forall j | 0 <= j < n :: front[j] == ds[j];
    if Declares(front, ds[n].id) {
      var j :| 0 <= j < n && front[j].id == ds[n].id;
    }
  }

  lemma {:induction false} WithoutConflictsIsListed(ds: seq<Descriptor>, n: nat, conflicts: set<string>)
    requires n <= |ds| && forall id :: id in conflicts <==> !Agreed(ds, id)
    ensures Without(Firsts(ds[..n]), conflicts) == Listed(ds, n)
  {
    hide Agreed, IsFirst, Firsts, Without;
    if n == 0 {
      assert ds[..0] == [];
      NothingListed(conflicts);
    } else {
      WithoutConflictsIsListed(ds, n - 1, conflicts);
      FirstsOneMore(ds, n - 1);
      WithoutOneMore(Firsts(ds[..n - 1]), ds[n - 1], conflicts);
    }
  }

  /** What remains of a tracked list once its conflicts are dropped. */
  lemma TrackedIsListed(
    ds: seq<Descriptor>, out: seq<Descriptor>, positions: map<string, nat>, conflicts: set<string>)
    requires Tracks(ds, out, positions, conflicts)
    ensures Without(out, conflicts) == Listed(ds, |ds|)
  {
    forall id ensures id in conflicts <==> !Agreed(ds, id) {
      ConflictIsDisagreement(ds, id);
    }
    assert ds[..|ds|] == ds;
    WithoutConflictsIsListed(ds, |ds|, conflicts);
  }

  // ---------- the merge ----------

  /** Compacts the list in its own storage; the slot written never lies ahead of the slot being read. */
  method FilterInPlace(buffer: array<Descriptor>, conflicts: set<string>) returns (kept: nat)
    modifies buffer
    ensures kept <= buffer.Length
    ensures buffer[..kept] == Without(old(buffer[..]), conflicts)
    ensures forall k | kept <= k < buffer.Length :: buffer[k] == old(buffer[k])
  {
    kept := 0;
    ghost var ds := buffer[..];
    for i := 0 to buffer.Length
      invariant 0 <= kept <= i
      invariant forall k | kept <= k < buffer.Length :: buffer[k] == ds[k]
      invariant buffer[..kept] == Without(ds[..i], conflicts)
    {
      var descriptor := buffer[i];
      assert ds[..i + 1] == ds[..i] + [descriptor];
      WithoutOneMore(ds[..i], descriptor, conflicts);
      if descriptor.id !in conflicts {
        ghost var done := buffer[..kept];
        buffer[kept] := descriptor;
        kept := kept + 1;
        assert buffer[..kept] == done + [descriptor];
      }
    }
    assert ds[..buffer.Length] == ds;
  }

  /** The collected list lives in an array of its own, which the filter reuses. */
  method DropConflicts(out: seq<Descriptor>, conflicts: set<string>) returns (kept: seq<Descriptor>)
    ensures kept == Without(out, conflicts)
  {
    var buffer := new Descriptor[|out|](i requires 0 <= i < |out| => out[i]);
    assert buffer[..] == out;
    var n := FilterInPlace(buffer, conflicts);
    kept := buffer[..n];
  }

  /** Adds one declaration to what has been collected. */
  method Collect(
    descriptor: Descriptor, out: seq<Descriptor>, positions: map<string, nat>, conflicts: set<string>,
    ghost ds: seq<Descriptor>)
    returns (out': seq<Descriptor>, positions': map<string, nat>, conflicts': set<string>)
    requires Tracks(ds, out, positions, conflicts)
    ensures Tracks(ds + [descriptor], out', positions', conflicts')
  {
    hide Declares, InConflict, FirstDeclares, EqualDescriptors, Firsts;
    out', positions', conflicts' := out, positions, conflicts;
    OneMoreDeclaration(ds, descriptor);
    ghost var first := if descriptor.id in positions then out[positions[descriptor.id]] else descriptor;
    forall id
      ensures InConflict(ds + [descriptor], id) <==>
        InConflict(ds, id)
        || (id == descriptor.id && Declares(ds, descriptor.id) && !EqualDescriptors(first, descriptor))
    {
      ConflictsGrow(ds, descriptor, first, id);
    }
    if descriptor.id in positions {
      if !EqualDescriptors(out[positions[descriptor.id]], descriptor) {
        conflicts' := conflicts' + {descriptor.id};
      }
    } else {
      positions' := positions'[descriptor.id := |out|];
      out' := out' + [descriptor];
    }
  }

  /** Adds one registration's declarations. */
  method CollectAll(
    actions: seq<Descriptor>, out: seq<Descriptor>, positions: map<string, nat>, conflicts: set<string>,
    ghost before: seq<Descriptor>)
    returns (out': seq<Descriptor>, positions': map<string, nat>, conflicts': set<string>)
    requires Tracks(before, out, positions, conflicts)
    ensures Tracks(before + actions, out', positions', conflicts')
  {
    hide Tracks;
    out', positions', conflicts' := out, positions, conflicts;
    assert before + actions[..0] == before;
    for i := 0 to |actions|
      invariant Tracks(before + actions[..i], out', positions', conflicts')
    {
      out', positions', conflicts' := Collect(actions[i], out', positions', conflicts', before + actions[..i]);
      assert before + actions[..i] + [actions[i]] == before + actions[..i + 1];
    }
    assert actions[..|actions|] == actions;
  }

  ghost predicate AllValid(rs: seq<Registration>, n: int) {
    forall i | 0 <= i < n && i < |rs| :: rs[i].valid
  }

  ghost predicate SomeListed(rs: seq<Registration>, n: int) {
    exists i :: 0 <= i < n && i < |rs| && rs[i].actions.Some?
  }

  lemma NothingSeen(rs: seq<Registration>)
    ensures AllValid(rs, 0) && !SomeListed(rs, 0)
  {}

  lemma OneMoreSeen(rs: seq<Registration>, n: nat)
    requires n < |rs|
    ensures AllValid(rs, n + 1) <==> AllValid(rs, n) && rs[n].valid
    ensures SomeListed(rs, n + 1) <==> SomeListed(rs, n) || rs[n].actions.Some?
    ensures !rs[n].valid ==> !AllValid(rs, |rs|)
  {}

  lemma SeenAll(rs: seq<Registration>)
    ensures AllValid(rs, |rs|) <==> forall i | 0 <= i < |rs| :: rs[i].valid
    ensures SomeListed(rs, |rs|) <==> !forall i | 0 <= i < |rs| :: rs[i].actions.None?
  {}

  lemma ActionsDeclared(r: Registration)
    ensures ActionsOf(r) == if r.actions.Some? then r.actions.value else []
  {}

  lemma DeclaredGrows(rs: seq<Registration>, r: nat)
    requires r < |rs|
    ensures Declared(rs[..r + 1]) == Declared(rs[..r]) + ActionsOf(rs[r])
  {
    assert rs[..r + 1][..r] == rs[..r];
  }

  /**
    Lists each declared ID once, in first-declaration order, exactly when its declarations agree; the
    result is nil exactly when every registration's list is, and an invalid registration fails the merge.
   */
  method MergeScopedActionDescriptors(registrations: seq<Registration>)
    returns (merged: Option<seq<Descriptor>>, ok: bool)
    ensures ok <==> forall i | 0 <= i < |registrations| :: registrations[i].valid
    ensures !ok ==> merged.None?
    ensures ok ==> (merged.None? <==> forall i | 0 <= i < |registrations| :: registrations[i].actions.None?)
    ensures ok && merged.Some? ==>
      var ds := Declared(registrations); merged.value == Listed(ds, |ds|)
  {
    merged, ok := None, true;
    assert Tracks([], [], map[], {}) && Declared([]) == [];
    hide Tracks, Listed, Without, Declared, ActionsOf, AllValid, SomeListed;
    NothingSeen(registrations);
    var out: seq<Descriptor> := [];
    assert registrations[..0] == [];
    var present := false;
    var positions: map<string, nat> := map[];
    var conflicts: set<string> := {};
    for r := 0 to |registrations|
      invariant AllValid(registrations, r) && (present <==> SomeListed(registrations, r))
      invariant Tracks(Declared(registrations[..r]), out, positions, conflicts)
    {
      var registration := registrations[r];
      OneMoreSeen(registrations, r);
      if !registration.valid {
        SeenAll(registrations);
        return None, false;
      }
      ghost var before := Declared(registrations[..r]);
      var actions: seq<Descriptor> := [];
      if registration.actions.Some? {
        present, actions := true, registration.actions.value;
      }
      assert actions == ActionsOf(registration) by { ActionsDeclared(registration); }
      out, positions, conflicts := CollectAll(actions, out, positions, conflicts, before);
      DeclaredGrows(registrations, r);
    }
    assert registrations[..|registrations|] == registrations;
    SeenAll(registrations);
    if !present {
      return;
    }
    var kept := DropConflicts(out, conflicts);
    TrackedIsListed(Declared(registrations), out, positions, conflicts);
    merged := Some(kept);
  }
}
