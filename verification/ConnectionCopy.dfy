/**
  The graph-preserving copier that gives a caller its own configuration containers.

  A Go value is an inline tree (interfaces, arrays, structs) whose leaves are scalars, opaque
  runtime handles, nils, or references into memory.  Memory maps a reference -- the type,
  pointer and length through which reflection sees a map, slice or pointer target -- to the
  contents seen through it, so shared and cyclic values are ordinary members of the model.
  Defined pointer types are aliases of one cell: memory is keyed by the type without that name.
 */
module ConnectionCopy {

  import opened Wrappers

  /**
    The types whose values refer to memory; `bytes` marks slices of an unsigned 8-bit kind, `defined` is
    the name of a defined pointer type and absent for the plain pointer to `elem`.
   */
  datatype RefType =
    | MapOf(name: string)
    | SliceOf(name: string, bytes: bool)
    | PointerTo(elem: string, defined: Option<string>)

  /** What allocating a pointer target yields: the pointer type without a name of its own. */
  function Plain(t: RefType): RefType {
    if t.PointerTo? then t.(defined := None) else t
  }

  /** The memo key: two references are the same exactly when type, pointer and length agree. */
  datatype Ref = Ref(typ: RefType, pointer: nat, length: nat)

  /** Where memory keeps what a reference sees. */
  function Cell(r: Ref): Ref {
    r.(typ := Plain(r.typ))
  }

  datatype Field = Field(exported: bool, value: Value)

  datatype Value =
    | Invalid                                     // no value at all, also an unset slot
    | Opaque(typ: string, bits: int)              // scalars, strings, channels, functions
    | Nil(refType: RefType)                       // nil map, slice or pointer
    | Refers(ref: Ref)                            // non-nil map, slice or pointer
    | NilInterface(typ: string)
    | Interface(typ: string, dynamic: Value)
    | Array(typ: string, elems: seq<Value>)
    | Struct(typ: string, fields: seq<Field>)

  datatype Node =
    | Entries(entries: map<Value, Value>)
    | Elements(elements: seq<Value>)
    | Pointee(target: Value)

  type Memory = map<Ref, Node>

  // ---------- well-formed memory ----------

  /** Every reference the copier may follow from v, through exported fields, is one of `refs`. */
  ghost predicate Closed(v: Value, refs: set<Ref>)
    decreases v
  {
    match v
    case Refers(r) => r in refs
    case Interface(_, d) => Closed(d, refs)
    case Array(_, es) => forall i | 0 <= i < |es| :: Closed(es[i], refs)
    case Struct(_, fs) => forall i | 0 <= i < |fs| :: fs[i].exported ==> Closed(fs[i].value, refs)
    case _ => true
  }

  ghost predicate NodeClosed(n: Node, refs: set<Ref>) {
    match n
    case Entries(m) => forall k | k in m :: Closed(m[k], refs)
    case Elements(es) => forall i | 0 <= i < |es| :: Closed(es[i], refs)
    case Pointee(t) => Closed(t, refs)
  }

  /** The contents fit the type of the reference that sees them. */
  ghost predicate Typed(r: Ref, n: Node) {
    match r.typ
    case MapOf(_) => n.Entries? && r.length == 0
    case SliceOf(_, bytes) =>
      && n.Elements?
      && |n.elements| == r.length
      && (bytes ==> forall i | 0 <= i < |n.elements| :: n.elements[i].Opaque?)
    case PointerTo(_, _) => n.Pointee? && r.length == 0
  }

  /** `refs` are the references that occur, finitely many; each leads to a cell that fits its type. */
  ghost predicate WellFormed(mem: Memory, refs: set<Ref>) {
    && (forall r | r in refs :: Cell(r) in mem && Typed(r, mem[Cell(r)]))
    && (forall r | r in mem :: NodeClosed(mem[r], refs))
  }

  // ---------- the copy relation ----------

  /**
    w, in a slot of v's type, is v with every reference redirected through `seen`; unexported fields are
    kept as they are.  Storing in a typed slot converts a pointer to the slot's type.
   */
  ghost predicate Copied(v: Value, w: Value, seen: map<Ref, Ref>)
    decreases v, 0
  {
    match v
    case Refers(r) => r in seen && w == Refers(seen[r].(typ := r.typ))
    case Interface(t, d) => w.Interface? && w.typ == t && Returned(d, w.dynamic, seen)
    case Array(t, es) =>
      && w.Array? && w.typ == t && |w.elems| == |es|
      && forall i | 0 <= i < |es| :: Copied(es[i], w.elems[i], seen)
    case Struct(t, fs) =>
      && w.Struct? && w.typ == t && |w.fields| == |fs|
      && forall i | 0 <= i < |fs| :: FieldCopied(fs[i], w.fields[i], seen)
    case _ => w == v
  }

  /** w is what the copier returns for v: a pointer has the plain type it was allocated with. */
  ghost predicate Returned(v: Value, w: Value, seen: map<Ref, Ref>)
    decreases v, 1
  {
    if v.Refers? then v.ref in seen && w == Refers(seen[v.ref]) else Copied(v, w, seen)
  }

  /** w stored in a slot of v's type. */
  function InSlot(v: Value, w: Value): Value {
    if v.Refers? && w.Refers? then Refers(w.ref.(typ := v.ref.typ)) else w
  }

  lemma StoredIsCopied(v: Value, w: Value, seen: map<Ref, Ref>)
    requires Returned(v, w, seen)
    ensures Copied(v, InSlot(v, w), seen)
  {}

  ghost predicate FieldCopied(f: Field, g: Field, seen: map<Ref, Ref>)
    decreases f, 0
  {
    if f.exported then g.exported && Copied(f.value, g.value, seen) else g == f
  }

  ghost predicate NodeCopied(n: Node, m: Node, seen: map<Ref, Ref>) {
    match n
    case Entries(es) =>
      && m.Entries? && m.entries.Keys == es.Keys
      && forall k | k in es :: Copied(es[k], m.entries[k], seen)
    case Elements(es) =>
      && m.Elements? && |m.elements| == |es|
      && forall i | 0 <= i < |es| :: Copied(es[i], m.elements[i], seen)
    case Pointee(t) => m.Pointee? && Copied(t, m.target, seen)
  }

  ghost predicate Extends(big: map<Ref, Ref>, small: map<Ref, Ref>) {
    forall r | r in small :: r in big && big[r] == small[r]
  }

  lemma CopiedExtends(v: Value, w: Value, small: map<Ref, Ref>, big: map<Ref, Ref>)
    requires Copied(v, w, small) && Extends(big, small)
    ensures Copied(v, w, big)
    decreases v
  {
    match v
    case Interface(_, d) =>
      if !d.Refers? {
        CopiedExtends(d, w.dynamic, small, big);
      }
    case Array(_, es) =>
      forall i | 0 <= i < |es| ensures Copied(es[i], w.elems[i], big) {
        CopiedExtends(es[i], w.elems[i], small, big);
      }
    case Struct(_, fs) =>
      forall i | 0 <= i < |fs| ensures FieldCopied(fs[i], w.fields[i], big) {
        assert FieldCopied(fs[i], w.fields[i], small);
        if fs[i].exported {
          CopiedExtends(fs[i].value, w.fields[i].value, small, big);
        }
      }
    case _ =>
  }

  lemma NodeCopiedExtends(n: Node, m: Node, small: map<Ref, Ref>, big: map<Ref, Ref>)
    requires NodeCopied(n, m, small) && Extends(big, small)
    ensures NodeCopied(n, m, big)
  {
    match n
    case Entries(es) =>
      forall k | k in es ensures Copied(es[k], m.entries[k], big) {
        CopiedExtends(es[k], m.entries[k], small, big);
      }
    case Elements(es) =>
      forall i | 0 <= i < |es| ensures Copied(es[i], m.elements[i], big) {
        CopiedExtends(es[i], m.elements[i], small, big);
      }
    case Pointee(t) => CopiedExtends(t, m.target, small, big);
  }

  ghost predicate EntriesCopied(source: map<Value, Value>, part: map<Value, Value>, seen: map<Ref, Ref>) {
    forall k | k in part :: k in source && Copied(source[k], part[k], seen)
  }

  lemma EntriesCopiedStep(
    source: map<Value, Value>, part: map<Value, Value>, small: map<Ref, Ref>, big: map<Ref, Ref>, k: Value, c: Value)
    requires EntriesCopied(source, part, small) && Extends(big, small)
    requires k in source && Copied(source[k], c, big)
    ensures EntriesCopied(source, part[k := c], big)
  {
    forall j | j in part ensures Copied(source[j], part[j], big) {
      CopiedExtends(source[j], part[j], small, big);
    }
  }

  ghost predicate ElementsCopied(source: seq<Value>, out: seq<Value>, n: nat, seen: map<Ref, Ref>) {
    n <= |source| == |out| && forall i | 0 <= i < n :: Copied(source[i], out[i], seen)
  }

  lemma ElementsCopiedStep(
    source: seq<Value>, out: seq<Value>, n: nat, small: map<Ref, Ref>, big: map<Ref, Ref>, c: Value)
    requires ElementsCopied(source, out, n, small) && Extends(big, small)
    requires n < |source| && Copied(source[n], c, big)
    ensures ElementsCopied(source, out[n := c], n + 1, big)
  {
    forall i | 0 <= i < n ensures Copied(source[i], out[i], big) {
      CopiedExtends(source[i], out[i], small, big);
    }
  }

  /** `origin` inverts `seen`, so distinct keys have distinct copies. */
  ghost predicate Progress(
    input: Memory, refs: set<Ref>, mem: Memory, seen: map<Ref, Ref>, origin: map<Ref, Ref>, open: set<Ref>)
  {
    && seen.Keys <= refs
    && (forall r | r in input :: r in mem && mem[r] == input[r])
    && (forall r | r in seen :: seen[r] in mem && seen[r] !in input
                             && seen[r].typ == Plain(r.typ) && seen[r].length == r.length)
    && (forall r | r in seen :: seen[r] in origin && origin[seen[r]] == r)
    && (forall r | r in seen && r !in open ::
          Cell(r) in input && NodeCopied(input[Cell(r)], mem[seen[r]], seen))
  }

  ghost predicate Allocated(input: Memory, mem: Memory, base: nat, next: nat) {
    && base <= next
    && (forall r | r in input :: r.pointer < base)
    && (forall r | r in mem && r !in input :: base <= r.pointer < next)
  }

  // ---------- what a holder of a value can observe ----------

  /** One access: the dynamic value of an interface, an element, a map entry, a target, an exported field. */
  datatype Step = Dynamic | Index(i: nat) | Key(key: Value) | Target | FieldAt(i: nat)

  function Select(mem: Memory, v: Value, s: Step): Option<Value> {
    match s
    case Dynamic => if v.Interface? then Some(v.dynamic) else None
    case FieldAt(i) =>
      if v.Struct? && i < |v.fields| && v.fields[i].exported then Some(v.fields[i].value) else None
    case Index(i) =>
      if v.Array? && i < |v.elems| then Some(v.elems[i])
      else
        var n := Seen(mem, v);
        if n.Some? && n.value.Elements? && i < |n.value.elements| then Some(n.value.elements[i]) else None
    case Key(k) =>
      var n := Seen(mem, v);
      if n.Some? && n.value.Entries? && k in n.value.entries then Some(n.value.entries[k]) else None
    case Target =>
      var n := Seen(mem, v);
      if n.Some? && n.value.Pointee? then Some(n.value.target) else None
  }

  /** The contents a reference leads to. */
  function Seen(mem: Memory, v: Value): Option<Node> {
    if v.Refers? && Cell(v.ref) in mem then Some(mem[Cell(v.ref)]) else None
  }

  function Follow(mem: Memory, v: Value, path: seq<Step>): Option<Value>
    decreases |path|
  {
    if path == [] then Some(v)
    else
      var before := Follow(mem, v, path[..|path| - 1]);
      if before.None? then None else Select(mem, before.value, path[|path| - 1])
  }

  /** Same length, nilness, scalar and type, but for the names of pointer types; unexported fields are identical. */
  ghost predicate SameForm(v: Value, w: Value) {
    match v
    case Refers(r) => w.Refers? && Plain(w.ref.typ) == Plain(r.typ) && w.ref.length == r.length
    case Interface(t, _) => w.Interface? && w.typ == t
    case Array(t, es) => w.Array? && w.typ == t && |w.elems| == |es|
    case Struct(t, fs) =>
      && w.Struct? && w.typ == t && |w.fields| == |fs|
      && forall i | 0 <= i < |fs| ::
           fs[i].exported == w.fields[i].exported && (!fs[i].exported ==> w.fields[i] == fs[i])
    case _ => w == v
  }

  /** Same concrete type as well. */
  ghost predicate SameShape(v: Value, w: Value) {
    SameForm(v, w) && (v.Refers? && w.Refers? ==> w.ref.typ == v.ref.typ)
  }

  ghost predicate SameViewForm(a: Option<Value>, b: Option<Value>) {
    a.Some? == b.Some? && (a.Some? ==> SameForm(a.value, b.value))
  }

  ghost predicate SameView(a: Option<Value>, b: Option<Value>) {
    a.Some? == b.Some? && (a.Some? ==> SameShape(a.value, b.value))
  }

  /** Every path shows the same thing from both lists of roots, but for the names of pointer types. */
  ghost predicate SameForms(mem: Memory, vs: seq<Value>, mem': Memory, ws: seq<Value>) {
    && |vs| == |ws|
    && forall i, p | 0 <= i < |vs| :: SameViewForm(Follow(mem, vs[i], p), Follow(mem', ws[i], p))
  }

  /** Every path shows the same thing, concrete types included. */
  ghost predicate SameViews(mem: Memory, vs: seq<Value>, mem': Memory, ws: seq<Value>) {
    && |vs| == |ws|
    && forall i, p | 0 <= i < |vs| :: SameView(Follow(mem, vs[i], p), Follow(mem', ws[i], p))
  }

  /** A non-nil pointer of a defined pointer type. */
  predicate IsDefinedPointer(v: Value) {
    v.Refers? && v.ref.typ.PointerTo? && v.ref.typ.defined.Some?
  }

  /** Some path from the roots reaches an interface that holds such a pointer. */
  ghost predicate HidesDefinedPointer(mem: Memory, vs: seq<Value>) {
    exists i, p :: 0 <= i < |vs| && HoldsDefinedPointer(Follow(mem, vs[i], p))
  }

  predicate HoldsDefinedPointer(at: Option<Value>) {
    at.Some? && at.value.Interface? && IsDefinedPointer(at.value.dynamic)
  }

  /** Both paths reach references with the same type, pointer and length. */
  ghost predicate Meet(mem: Memory, v: Value, p: seq<Step>, w: Value, q: seq<Step>) {
    Follow(mem, v, p).Some? && Follow(mem, v, p).value.Refers? && Follow(mem, v, p) == Follow(mem, w, q)
  }

  /** Both paths reach one container. */
  ghost predicate MeetInCell(mem: Memory, v: Value, p: seq<Step>, w: Value, q: seq<Step>) {
    var a, b := Follow(mem, v, p), Follow(mem, w, q);
    a.Some? && b.Some? && a.value.Refers? && b.value.Refers? && Cell(a.value.ref) == Cell(b.value.ref)
  }

  /** Two paths, from the same or different roots, share a container in ws exactly when they meet in vs. */
  ghost predicate SameSharing(mem: Memory, vs: seq<Value>, mem': Memory, ws: seq<Value>) {
    && |vs| == |ws|
    && forall i, j, p, q | 0 <= i < |vs| && 0 <= j < |vs| ::
         Meet(mem, vs[i], p, vs[j], q) <==> MeetInCell(mem', ws[i], p, ws[j], q)
  }

  /** Nothing a path from ws reaches lies at an address of `mem`. */
  ghost predicate Detached(mem: Memory, mem': Memory, ws: seq<Value>) {
    forall i, p | 0 <= i < |ws| && Follow(mem', ws[i], p).Some? && Follow(mem', ws[i], p).value.Refers? ::
      forall r | r in mem :: r.pointer != Follow(mem', ws[i], p).value.ref.pointer
  }

  ghost predicate Kept(mem: Memory, mem': Memory) {
    forall r | r in mem :: r in mem' && mem'[r] == mem[r]
  }

  /** w stands for v, in a slot or as the copier returned it. */
  ghost predicate Linked(v: Value, w: Value, seen: map<Ref, Ref>, returned: bool) {
    if returned then Returned(v, w, seen) else Copied(v, w, seen)
  }

  /** The two ways of standing for v differ in the names of pointer types only. */
  lemma LinkedShape(v: Value, w: Value, seen: map<Ref, Ref>, returned: bool)
    requires Linked(v, w, seen, returned)
    requires forall r | r in seen :: seen[r].typ == Plain(r.typ) && seen[r].length == r.length
    ensures SameForm(v, w)
    ensures SameShape(v, w) <==> !(returned && IsDefinedPointer(v))
    ensures v.Refers? ==> v.ref in seen && w.Refers? && Cell(w.ref) == seen[v.ref]
  {
    assert v.Refers? || Copied(v, w, seen);
    if v.Struct? {
      forall i | 0 <= i < |v.fields|
        ensures v.fields[i].exported == w.fields[i].exported
        ensures !v.fields[i].exported ==> w.fields[i] == v.fields[i]
      {
        assert FieldCopied(v.fields[i], w.fields[i], seen);
      }
    }
  }

  lemma SelectInline(input: Memory, mem: Memory, v: Value, w: Value, seen: map<Ref, Ref>, s: Step)
    requires !v.Refers? && Copied(v, w, seen)
    ensures Select(input, v, s).Some? == Select(mem, w, s).Some?
    ensures Select(input, v, s).Some? ==>
      Linked(Select(input, v, s).value, Select(mem, w, s).value, seen, s.Dynamic?)
  {
    if v.Struct? && s.FieldAt? && s.i < |v.fields| {
      assert FieldCopied(v.fields[s.i], w.fields[s.i], seen);
    }
  }

  lemma SelectLinked(c: Copying, v: Value, w: Value, returned: bool, s: Step)
    requires Ok(c, {}) && Linked(v, w, c.seen, returned)
    ensures Select(c.input, v, s).Some? == Select(c.mem, w, s).Some?
    ensures Select(c.input, v, s).Some? ==>
      Linked(Select(c.input, v, s).value, Select(c.mem, w, s).value, c.seen, s.Dynamic?)
  {
    if v.Refers? {
      hide WellFormed, Allocated;
      assert NodeCopied(c.input[Cell(v.ref)], c.mem[c.seen[v.ref]], c.seen);
    } else {
      hide Ok, Select;
      SelectInline(c.input, c.mem, v, w, c.seen, s);
    }
  }

  predicate EndsInInterface(path: seq<Step>) {
    path != [] && path[|path| - 1].Dynamic?
  }

  /** A path leads from a value and from its copy to a value and its copy, or from both nowhere. */
  lemma {:induction false} FollowLinked(c: Copying, v: Value, w: Value, path: seq<Step>)
    requires Ok(c, {}) && Copied(v, w, c.seen)
    ensures Follow(c.input, v, path).Some? == Follow(c.mem, w, path).Some?
    ensures Follow(c.input, v, path).Some? ==>
      Linked(Follow(c.input, v, path).value, Follow(c.mem, w, path).value, c.seen, EndsInInterface(path))
    decreases |path|
  {
    hide Ok, Copied;
    if path != [] {
      var front, last := path[..|path| - 1], path[|path| - 1];
      FollowLinked(c, v, w, front);
      var x, y := Follow(c.input, v, front), Follow(c.mem, w, front);
      if x.Some? {
        SelectLinked(c, x.value, y.value, EndsInInterface(front), last);
      }
    }
  }

  ghost predicate AllCopied(vs: seq<Value>, ws: seq<Value>, seen: map<Ref, Ref>) {
    |vs| == |ws| && forall i | 0 <= i < |vs| :: Copied(vs[i], ws[i], seen)
  }

  // ---------- the copier ----------

  /** The copier's fields, the memory around it, and three ghosts: the input memory, its references, the inverse of `seen`. */
  datatype Copying = Copying(
    input: Memory, refs: set<Ref>, base: nat,
    mem: Memory, next: nat, seen: map<Ref, Ref>, origin: map<Ref, Ref>)

  /** `open` holds the keys whose copy is remembered but still being filled. */
  ghost predicate Ok(c: Copying, open: set<Ref>) {
    && WellFormed(c.input, c.refs)
    && open <= c.seen.Keys
    && Progress(c.input, c.refs, c.mem, c.seen, c.origin, open)
    && Allocated(c.input, c.mem, c.base, c.next)
  }

  /** From a to b: keys keep their copies, new copies are new memory, and only `except` is rewritten. */
  ghost predicate Grows(a: Copying, b: Copying, except: set<Ref>) {
    && a.input == b.input && a.refs == b.refs && a.base == b.base
    && Extends(b.seen, a.seen)
    && (forall r | r in b.seen && r !in a.seen :: b.seen[r] !in a.mem)
    && (forall r | r in a.mem :: r in b.mem && (r !in except ==> b.mem[r] == a.mem[r]))
  }

  lemma GrowsAgain(a: Copying, b: Copying, c: Copying, x: set<Ref>, y: set<Ref>, z: set<Ref>)
    requires Grows(a, b, x) && Grows(b, c, y)
    requires forall r | r in x + y && r in a.mem :: r in z
    ensures Grows(a, c, z)
  {}

  lemma GrowsItself(c: Copying)
    ensures forall x :: Grows(c, c, x)
  {}

  lemma GrowsFacts(a: Copying, b: Copying, x: set<Ref>)
    requires Grows(a, b, x)
    ensures a.seen.Keys <= b.seen.Keys && Extends(b.seen, a.seen) && a.mem.Keys <= b.mem.Keys
    ensures forall r | r in b.seen && r !in a.seen :: b.seen[r] !in a.mem
    ensures forall r | r in a.mem && r !in x :: b.mem[r] == a.mem[r]
  {}

  lemma InputIsKept(c: Copying, open: set<Ref>, r: Ref)
    requires Ok(c, open) && r in c.refs
    ensures Cell(r) in c.input && Cell(r) in c.mem && c.mem[Cell(r)] == c.input[Cell(r)]
    ensures Typed(r, c.input[Cell(r)]) && NodeClosed(c.input[Cell(r)], c.refs)
  {}

  /** The next free address holds a new container. */
  function Allocation(c: Copying, typ: RefType, length: nat, node: Node): Copying {
    c.(mem := c.mem[Ref(typ, c.next, length) := node], next := c.next + 1)
  }

  lemma AllocationOk(c: Copying, open: set<Ref>, typ: RefType, length: nat, node: Node)
    requires Ok(c, open)
    ensures Ok(Allocation(c, typ, length, node), open)
    ensures Grows(c, Allocation(c, typ, length, node), {})
    ensures Ref(typ, c.next, length) !in c.mem && Ref(typ, c.next, length) !in c.input
    ensures forall r | r in c.seen :: c.seen[r] != Ref(typ, c.next, length)
  {
    hide NodeCopied, WellFormed;
  }

  lemma RememberingOk(c: Copying, open: set<Ref>, ref: Ref, out: Ref)
    requires Ok(c, open) && ref in c.refs && ref !in c.seen
    requires out in c.mem && out !in c.input && out.typ == Plain(ref.typ) && out.length == ref.length
    requires forall r | r in c.seen :: c.seen[r] != out
    ensures Ok(c.(seen := c.seen[ref := out], origin := c.origin[out := ref]), open + {ref})
    ensures ref !in open
  {
    hide WellFormed;
    var seen := c.seen[ref := out];
    forall r | r in seen && r !in open + {ref}
      ensures Cell(r) in c.input && NodeCopied(c.input[Cell(r)], c.mem[seen[r]], seen)
    {
      NodeCopiedExtends(c.input[Cell(r)], c.mem[c.seen[r]], c.seen, seen);
    }
  }

  lemma WritingOk(c: Copying, open: set<Ref>, out: Ref, node: Node)
    requires Ok(c, open) && out in c.mem && out !in c.input
    requires forall r | r in c.seen && c.seen[r] == out :: r in open
    ensures Ok(c.(mem := c.mem[out := node]), open)
    ensures Grows(c, c.(mem := c.mem[out := node]), {out})
  {
    hide NodeCopied, WellFormed;
  }

  lemma SeenKeepsTypes(c: Copying, open: set<Ref>)
    requires Ok(c, open)
    ensures forall r | r in c.seen :: c.seen[r].typ == Plain(r.typ) && c.seen[r].length == r.length
  {}

  /** The only key standing for a container is the one that was remembered for it. */
  lemma OneKey(c: Copying, open: set<Ref>, ref: Ref, out: Ref)
    requires Ok(c, open) && ref in c.seen && c.seen[ref] == out
    ensures out in c.mem && out !in c.input
    ensures forall r | r in c.seen && c.seen[r] == out :: r == ref
  {
    hide NodeCopied, WellFormed;
  }

  lemma ClosingOk(c: Copying, open: set<Ref>, ref: Ref)
    requires Ok(c, open + {ref}) && ref in c.seen && ref !in open
    requires c.seen[ref] in c.mem && Cell(ref) in c.input
    requires NodeCopied(c.input[Cell(ref)], c.mem[c.seen[ref]], c.seen)
    ensures Ok(c, open)
  {
    hide WellFormed, Typed;
  }

  lemma FollowedShape(c: Copying, v: Value, w: Value, path: seq<Step>)
    requires Ok(c, {}) && Copied(v, w, c.seen)
    ensures var x, y := Follow(c.input, v, path), Follow(c.mem, w, path);
      && SameViewForm(x, y)
      && (SameView(x, y) <==> !(EndsInInterface(path) && x.Some? && IsDefinedPointer(x.value)))
      && (x.Some? && x.value.Refers? ==> x.value.ref in c.seen && Cell(y.value.ref) == c.seen[x.value.ref])
      && (x.Some? && x.value.Refers? <==> y.Some? && y.value.Refers?)
  {
    FollowLinked(c, v, w, path);
    SeenKeepsTypes(c, {});
    var x, y := Follow(c.input, v, path), Follow(c.mem, w, path);
    hide Ok, Follow, Copied, Returned;
    if x.Some? {
      LinkedShape(x.value, y.value, c.seen, EndsInInterface(path));
    }
  }

  /** A finished copier has produced a detached graph of the same form and sharing. */
  lemma FinishedCopyIsIsomorphic(c: Copying, vs: seq<Value>, ws: seq<Value>)
    requires Ok(c, {}) && AllCopied(vs, ws, c.seen)
    ensures Kept(c.input, c.mem)
    ensures SameForms(c.input, vs, c.mem, ws)
    ensures SameSharing(c.input, vs, c.mem, ws)
    ensures Detached(c.input, c.mem, ws)
  {
    var input, mem, seen := c.input, c.mem, c.seen;
    hide Follow, Copied, Returned, WellFormed, SameForm, NodeCopied;
    forall i, p | 0 <= i < |vs| ensures SameViewForm(Follow(input, vs[i], p), Follow(mem, ws[i], p)) {
      FollowedShape(c, vs[i], ws[i], p);
    }
    forall i, j, p, q | 0 <= i < |vs| && 0 <= j < |vs|
      ensures Meet(input, vs[i], p, vs[j], q) <==> MeetInCell(mem, ws[i], p, ws[j], q)
    {
      FollowedShape(c, vs[i], ws[i], p);
      FollowedShape(c, vs[j], ws[j], q);
    }
    forall i, p | 0 <= i < |ws| && Follow(mem, ws[i], p).Some? && Follow(mem, ws[i], p).value.Refers?
      ensures forall r | r in input :: r.pointer != Follow(mem, ws[i], p).value.ref.pointer
    {
      FollowedShape(c, vs[i], ws[i], p);
    }
  }

  /** It shows the same concrete types as well exactly when no interface holds a pointer of a defined type. */
  lemma ConcreteTypesSurvive(c: Copying, vs: seq<Value>, ws: seq<Value>)
    requires Ok(c, {}) && AllCopied(vs, ws, c.seen)
    ensures SameViews(c.input, vs, c.mem, ws) <==> !HidesDefinedPointer(c.input, vs)
  {
    hide Ok, Copied, SameView;
    if i, p :| 0 <= i < |vs| && HoldsDefinedPointer(Follow(c.input, vs[i], p)) {
      var path := p + [Dynamic];
      assert path[..|path| - 1] == p;
      FollowedShape(c, vs[i], ws[i], path);
      assert !SameView(Follow(c.input, vs[i], path), Follow(c.mem, ws[i], path));
    } else {
      forall i, p | 0 <= i < |vs| ensures SameView(Follow(c.input, vs[i], p), Follow(c.mem, ws[i], p)) {
        FollowedShape(c, vs[i], ws[i], p);
        if EndsInInterface(p) && Follow(c.input, vs[i], p).Some? {
          assert !HoldsDefinedPointer(Follow(c.input, vs[i], p[..|p| - 1]));
        }
      }
    }
  }

  // A map whose entry "x" holds a pointer of type P, defined as *int.
  const X: Value := Opaque("string", 0)
  const P: Ref := Ref(PointerTo("int", Some("P")), 1, 0)
  const DATA: Ref := Ref(MapOf("map[string]any"), 2, 0)
  const HOLDS_P: Memory :=
    map[Cell(P) := Pointee(Opaque("int", 7)), DATA := Entries(map[X := Interface("any", Refers(P))])]

  /** Its copy's entry holds an *int: the interface's dynamic type has changed. */
  lemma DefinedPointerLosesItsName(c: Copying, w: Value)
    requires Ok(c, {}) && c.input == HOLDS_P && Copied(Refers(DATA), w, c.seen)
    ensures HidesDefinedPointer(HOLDS_P, [Refers(DATA)]) && !SameViews(HOLDS_P, [Refers(DATA)], c.mem, [w])
    ensures Follow(HOLDS_P, Refers(DATA), [Key(X), Dynamic]) == Some(Refers(P))
    ensures var at := Follow(c.mem, w, [Key(X), Dynamic]);
      at.Some? && at.value.Refers? && at.value.ref.typ == PointerTo("int", None)
  {
    hide Ok, Copied;
    var short, path := [Key(X)], [Key(X), Dynamic];
    assert short[..0] == [] && path[..1] == short;
    assert Follow(HOLDS_P, Refers(DATA), short) == Some(Interface("any", Refers(P)));
    assert HoldsDefinedPointer(Follow(HOLDS_P, [Refers(DATA)][0], short));
    ConcreteTypesSurvive(c, [Refers(DATA)], [w]);
    FollowedShape(c, Refers(DATA), w, path);
    SeenKeepsTypes(c, {});
    FollowLinked(c, Refers(DATA), w, path);
  }

  class MetadataCopy {
    var seen: map<Ref, Ref>
    var mem: Memory
    var next: nat
    ghost var origin: map<Ref, Ref>
    ghost const input: Memory
    ghost const refs: set<Ref>
    ghost const base: nat

    ghost function Now(): Copying
      reads this
    {
      Copying(input, refs, base, mem, next, seen, origin)
    }

    constructor (memory: Memory, ghost refs: set<Ref>, free: nat)
      requires WellFormed(memory, refs)
      requires forall r | r in memory :: r.pointer < free
      ensures Ok(Now(), {})
      ensures Now() == Copying(memory, refs, free, memory, free, map[], map[])
    {
      seen, mem, next := map[], memory, free;
      origin, input, this.refs, base := map[], memory, refs, free;
    }

    method Allocate(typ: RefType, length: nat, node: Node, ghost open: set<Ref>) returns (out: Ref)
      requires Ok(Now(), open)
      modifies this
      ensures Ok(Now(), open) && Grows(old(Now()), Now(), {})
      ensures Now() == Allocation(old(Now()), typ, length, node) && out == Ref(typ, old(next), length)
      ensures out !in old(mem) && out !in input && out in mem && mem[out] == node
      ensures forall r | r in seen :: seen[r] != out
    {
      hide Ok, Grows;
      AllocationOk(Now(), open, typ, length, node);
      out := Ref(typ, next, length);
      mem, next := mem[out := node], next + 1;
    }

    method Remember(ref: Ref, blank: Node, ghost open: set<Ref>) returns (out: Ref, found: bool)
      requires Ok(Now(), open) && ref in refs
      modifies this
      ensures found <==> ref in old(seen)
      ensures found ==> Now() == old(Now()) && out == seen[ref]
      ensures !found ==>
        && Ok(Now(), open + {ref}) && ref !in open && Grows(old(Now()), Now(), {})
        && seen == old(seen)[ref := out]
        && out !in old(mem) && out in mem && mem[out] == blank && out !in input
    {
      hide Ok;
      if ref in seen {
        return seen[ref], true;
      }
      out := Allocate(Plain(ref.typ), ref.length, blank, open);
      RememberingOk(Now(), open, ref, out);
      seen, origin := seen[ref := out], origin[out := ref];
      found := false;
    }

    /** Writes a container that is still being filled: every key it stands for is open. */
    method Store(out: Ref, node: Node, ghost open: set<Ref>)
      requires Ok(Now(), open) && out in mem && out !in input
      requires forall r | r in seen && seen[r] == out :: r in open
      modifies this
      ensures Ok(Now(), open) && Grows(old(Now()), Now(), {out})
      ensures seen == old(seen) && mem == old(mem)[out := node]
    {
      hide Ok, Grows;
      WritingOk(Now(), open, out, node);
      mem := mem[out := node];
    }

    method CopyValue(v: Value, ghost open: set<Ref>) returns (w: Value)
      requires Ok(Now(), open) && Closed(v, refs)
      modifies this
      ensures Ok(Now(), open) && Grows(old(Now()), Now(), {}) && Returned(v, w, seen)
      decreases refs - seen.Keys, v, 2
    {
      hide Ok;
      match v
      case NilInterface(_) =>
        w := v;
      case Interface(t, d) =>
        var inner := CopyValue(d, open);
        w := Interface(t, inner);
      case Array(t, es) =>
        w := ArrayValue(v, open);
      case Struct(_, _) =>
        w := StructValue(v, open);
      case Nil(_) =>
        w := v;
      case Refers(r) =>
        match r.typ {
          case MapOf(_) => w := MapValue(r, open);
          case SliceOf(_, _) => w := SliceValue(r, open);
          case PointerTo(_, _) => w := PointerValue(r, open);
        }
      case Invalid =>
        w := v;
      case Opaque(_, _) =>
        w := v;
    }

    method ArrayValue(v: Value, ghost open: set<Ref>) returns (w: Value)
      requires Ok(Now(), open) && v.Array? && Closed(v, refs)
      modifies this
      ensures Ok(Now(), open) && Grows(old(Now()), Now(), {}) && Copied(v, w, seen)
      decreases refs - seen.Keys, v, 1
    {
      hide Ok, Grows;
      var out := Allocate(PointerTo(v.typ, None), 0, Elements(seq(|v.elems|, _ => Invalid)), open);
      label L:
      CopyElements(out, v, open);
      GrowsAgain(old(Now()), old@L(Now()), Now(), {}, {out}, {});
      w := Array(v.typ, mem[out].elements);
    }

    method PointerValue(r: Ref, ghost open: set<Ref>) returns (w: Value)
      requires Ok(Now(), open) && r in refs && r.typ.PointerTo?
      modifies this
      ensures Ok(Now(), open) && Grows(old(Now()), Now(), {}) && Returned(Refers(r), w, seen)
      decreases refs - seen.Keys, Refers(r), 1
    {
      hide Ok, Grows;
      InputIsKept(Now(), open, r);
      var target := mem[Cell(r)].target;
      var out, found := Remember(r, Pointee(Invalid), open);
      if !found {
        label L1:
        GrowsFacts(old(Now()), Now(), {});
        var copied := CopyValue(target, open + {r});
        label L2:
        GrowsFacts(old@L1(Now()), Now(), {});
        OneKey(Now(), open + {r}, r, out);
        StoredIsCopied(target, copied, seen);
        Store(out, Pointee(InSlot(target, copied)), open + {r});
        ClosingOk(Now(), open, r);
        GrowsAgain(old@L1(Now()), old@L2(Now()), Now(), {}, {out}, {out});
        GrowsAgain(old(Now()), old@L1(Now()), Now(), {}, {out}, {});
      } else {
        GrowsItself(Now());
      }
      w := Refers(out);
    }

    method MapValue(r: Ref, ghost open: set<Ref>) returns (w: Value)
      requires Ok(Now(), open) && r in refs && r.typ.MapOf?
      modifies this
      ensures Ok(Now(), open) && Grows(old(Now()), Now(), {}) && Returned(Refers(r), w, seen)
      decreases refs - seen.Keys, Refers(r), 1
    {
      hide Ok, Grows;
      InputIsKept(Now(), open, r);
      var source := mem[Cell(r)].entries;
      var out, found := Remember(r, Entries(map[]), open);
      if !found {
        label L:
        GrowsFacts(old(Now()), Now(), {});
        CopyEntries(r, source, out, open + {r});
        GrowsFacts(old@L(Now()), Now(), {out});
        ClosingOk(Now(), open, r);
        GrowsAgain(old(Now()), old@L(Now()), Now(), {}, {out}, {});
      } else {
        GrowsItself(Now());
      }
      w := Refers(out);
    }

    /** The map loop; the iteration order is arbitrary and keys are kept, not copied. */
    method CopyEntries(r: Ref, source: map<Value, Value>, out: Ref, ghost open: set<Ref>)
      requires Ok(Now(), open) && r in open && r in seen && seen[r] == out
      requires r in refs && Cell(r) in input
      requires input[Cell(r)] == Entries(source) && NodeClosed(input[Cell(r)], refs)
      requires out in mem && mem[out] == Entries(map[])
      modifies this
      ensures Ok(Now(), open) && Grows(old(Now()), Now(), {out})
      ensures out in mem && NodeCopied(input[Cell(r)], mem[out], seen)
      decreases refs - seen.Keys + {r}, Refers(r), 0
    {
      hide Ok, Grows, Copied, Closed;
      var todo := source.Keys;
      GrowsItself(Now());
      while todo != {}
        invariant todo <= source.Keys
        invariant Ok(Now(), open) && Grows(old(Now()), Now(), {out}) && r in seen && seen[r] == out
        invariant out in mem && mem[out].Entries? && mem[out].entries.Keys == source.Keys - todo
        invariant EntriesCopied(source, mem[out].entries, seen)
        decreases todo
      {
        label L1:
        var k :| k in todo;
        GrowsFacts(old(Now()), Now(), {out});
        var c := CopyValue(source[k], open);
        label L2:
        GrowsFacts(old@L1(Now()), Now(), {});
        StoredIsCopied(source[k], c, seen);
        c := InSlot(source[k], c);
        EntriesCopiedStep(source, mem[out].entries, old@L1(seen), seen, k, c);
        OneKey(Now(), open, r, out);
        Store(out, Entries(mem[out].entries[k := c]), open);
        GrowsAgain(old@L1(Now()), old@L2(Now()), Now(), {}, {out}, {out});
        GrowsAgain(old(Now()), old@L1(Now()), Now(), {out}, {out}, {out});
        todo := todo - {k};
      }
    }

    method SliceValue(r: Ref, ghost open: set<Ref>) returns (w: Value)
      requires Ok(Now(), open) && r in refs && r.typ.SliceOf?
      modifies this
      ensures Ok(Now(), open) && Grows(old(Now()), Now(), {}) && Returned(Refers(r), w, seen)
      decreases refs - seen.Keys, Refers(r), 1
    {
      hide Ok, Grows;
      InputIsKept(Now(), open, r);
      var source := mem[Cell(r)].elements;
      var out, found := Remember(r, Elements(seq(r.length, _ => Invalid)), open);
      if !found {
        label L:
        GrowsFacts(old(Now()), Now(), {});
        OneKey(Now(), open + {r}, r, out);
        if r.typ.bytes {
          Store(out, Elements(source), open + {r});
        } else {
          CopyElements(out, Array(r.typ.name, source), open + {r});
        }
        GrowsFacts(old@L(Now()), Now(), {out});
        ClosingOk(Now(), open, r);
        GrowsAgain(old(Now()), old@L(Now()), Now(), {}, {out}, {});
      } else {
        GrowsItself(Now());
      }
      w := Refers(out);
    }

    /** Fills `out`, a fresh container with one slot an element, slot by slot. */
    method CopyElements(out: Ref, v: Value, ghost open: set<Ref>)
      requires Ok(Now(), open) && v.Array? && Closed(v, refs)
      requires out in mem && out !in input && mem[out].Elements? && |mem[out].elements| == |v.elems|
      requires forall r | r in seen && seen[r] == out :: r in open
      modifies this
      ensures Ok(Now(), open) && Grows(old(Now()), Now(), {out})
      ensures out in mem && mem[out].Elements? && |mem[out].elements| == |v.elems|
      ensures ElementsCopied(v.elems, mem[out].elements, |v.elems|, seen)
      decreases refs - seen.Keys, v, 0
    {
      hide Ok, Grows, Copied;
      var i := 0;
      GrowsItself(Now());
      while i < |v.elems|
        invariant 0 <= i <= |v.elems|
        invariant Ok(Now(), open) && Grows(old(Now()), Now(), {out})
        invariant out in mem && mem[out].Elements? && |mem[out].elements| == |v.elems|
        invariant forall r | r in seen && seen[r] == out :: r in open
        invariant ElementsCopied(v.elems, mem[out].elements, i, seen)
      {
        label L1:
        GrowsFacts(old(Now()), Now(), {out});
        var c := CopyValue(v.elems[i], open);
        label L2:
        GrowsFacts(old@L1(Now()), Now(), {});
        StoredIsCopied(v.elems[i], c, seen);
        c := InSlot(v.elems[i], c);
        ElementsCopiedStep(v.elems, mem[out].elements, i, old@L1(seen), seen, c);
        Store(out, Elements(mem[out].elements[i := c]), open);
        GrowsAgain(old@L1(Now()), old@L2(Now()), Now(), {}, {out}, {out});
        GrowsAgain(old(Now()), old@L1(Now()), Now(), {out}, {out}, {out});
        i := i + 1;
      }
    }

    method StructValue(v: Value, ghost open: set<Ref>) returns (w: Value)
      requires Ok(Now(), open) && v.Struct? && Closed(v, refs)
      modifies this
      ensures Ok(Now(), open) && Grows(old(Now()), Now(), {}) && Copied(v, w, seen)
      decreases refs - seen.Keys, v, 1
    {
      hide Ok, Grows;
      w := v;
      var i := 0;
      GrowsItself(Now());
      while i < |v.fields|
        invariant 0 <= i <= |v.fields|
        invariant Ok(Now(), open) && Grows(old(Now()), Now(), {})
        invariant w.Struct? && w.typ == v.typ && |w.fields| == |v.fields|
        invariant forall j | 0 <= j < i :: FieldCopied(v.fields[j], w.fields[j], seen)
        invariant forall j | i <= j < |v.fields| :: w.fields[j] == v.fields[j]
      {
        if v.fields[i].exported {
          label L1:
          GrowsFacts(old(Now()), Now(), {});
          var c := CopyValue(v.fields[i].value, open);
          GrowsFacts(old@L1(Now()), Now(), {});
          StoredIsCopied(v.fields[i].value, c, seen);
          c := InSlot(v.fields[i].value, c);
          GrowsAgain(old(Now()), old@L1(Now()), Now(), {}, {}, {});
          forall j | 0 <= j < i ensures FieldCopied(v.fields[j], w.fields[j], seen) {
            if v.fields[j].exported {
              CopiedExtends(v.fields[j].value, w.fields[j].value, old@L1(seen), seen);
            }
          }
          w := w.(fields := w.fields[i := Field(true, c)]);
        }
        i := i + 1;
      }
    }
  }

  // ---------- a connection ----------

  /** `display` stands for the identity, display and expiry fields, which hold no references. */
  datatype Connection = Connection(
    display: seq<string>, data: Value, labels: Value, sensitiveData: Value, lifecycle: Value, client: Value)

  /** Kinds as reflection names them; an untyped nil client has none, and an interface shows what it holds. */
  datatype Kind = NoKind | InterfaceKind | ArrayKind | StructKind | MapKind | SliceKind | PointerKind | OtherKind

  function KindOf(v: Value): Kind {
    match v
    case Invalid => NoKind
    case Opaque(_, _) => OtherKind
    case Nil(t) => RefKind(t)
    case Refers(r) => RefKind(r.typ)
    case NilInterface(_) => InterfaceKind
    case Interface(_, _) => InterfaceKind
    case Array(_, _) => ArrayKind
    case Struct(_, _) => StructKind
  }

  function RefKind(t: RefType): Kind {
    match t
    case MapOf(_) => MapKind
    case SliceOf(_, _) => SliceKind
    case PointerTo(_, _) => PointerKind
  }

  /** A client that is a map, slice or array is configuration; anything else is a runtime handle. */
  ghost predicate IsContainer(client: Value) {
    || client.Array?
    || (client.Refers? && (client.ref.typ.MapOf? || client.ref.typ.SliceOf?))
    || (client.Nil? && (client.refType.MapOf? || client.refType.SliceOf?))
  }

  lemma ContainerKinds(v: Value)
    ensures IsContainer(v) <==> KindOf(v) == MapKind || KindOf(v) == SliceKind || KindOf(v) == ArrayKind
  {}

  lemma SameFormSameKind(v: Value, w: Value)
    requires SameForm(v, w)
    ensures IsContainer(w) == IsContainer(v) && IsMap(w) == IsMap(v) && w.Struct? == v.Struct?
    ensures IsContainer(v) || IsMap(v) || v.Struct? ==> !IsDefinedPointer(v)
  {}

  ghost function Owned(c: Connection): seq<Value> {
    [c.data, c.labels, c.sensitiveData, c.lifecycle] + if IsContainer(c.client) then [c.client] else []
  }

  ghost predicate ClosedConnection(c: Connection, refs: set<Ref>) {
    && Closed(c.data, refs) && Closed(c.labels, refs) && Closed(c.sensitiveData, refs) && Closed(c.lifecycle, refs)
    && (IsContainer(c.client) ==> Closed(c.client, refs))
  }

  predicate IsMap(v: Value) {
    (v.Nil? && v.refType.MapOf?) || (v.Refers? && v.ref.typ.MapOf?)
  }

  /** The fields have their declared types: three maps and a struct. */
  predicate IsDeclared(c: Connection) {
    IsMap(c.data) && IsMap(c.labels) && IsMap(c.sensitiveData) && c.lifecycle.Struct?
  }

  /**
    One field of the connection, of v's own type.  What the copier returns is asserted to be of that type;
    `ok` says that this does not panic, and only a pointer of a defined pointer type makes it.
   */
  method CopyMetadata(copier: MetadataCopy, v: Value, ghost done: seq<Value>, ghost copies: seq<Value>)
    returns (w: Value, ok: bool)
    requires Ok(copier.Now(), {}) && Closed(v, copier.refs) && AllCopied(done, copies, copier.seen)
    modifies copier
    ensures Ok(copier.Now(), {}) && SameForm(v, w)
    ensures ok <==> SameShape(v, w)
    ensures ok <==> !IsDefinedPointer(v)
    ensures IsContainer(w) == IsContainer(v) && IsMap(w) == IsMap(v) && w.Struct? == v.Struct?
    ensures IsContainer(v) || IsMap(v) || v.Struct? ==> ok
    ensures ok ==> AllCopied(done + [v], copies + [w], copier.seen)
  {
    hide Ok, Grows, Copied;
    ghost var known := copier.Now();
    w := copier.CopyValue(v, {});
    ok := !(v.Refers? && w.Refers?) || v.ref.typ == w.ref.typ;
    GrowsFacts(known, copier.Now(), {});
    SeenKeepsTypes(copier.Now(), {});
    LinkedShape(v, w, copier.seen, true);
    SameFormSameKind(v, w);
    StoredIsCopied(v, w, copier.seen);
    forall i | 0 <= i < |done| ensures Copied(done[i], copies[i], copier.seen) {
      CopiedExtends(done[i], copies[i], known.seen, copier.seen);
    }
  }

  /**
    The clone is detached and has the form and the sharing of the original, whatever the configuration
    holds.  Its concrete types are the original's exactly when no interface on the way to anything holds
    a pointer of a defined pointer type.  `refs` are the references that occur, finitely many.
   */
  method CloneConnection(conn: Connection, memory: Memory, ghost refs: set<Ref>, free: nat)
    returns (out: Connection, memory': Memory)
    requires WellFormed(memory, refs) && forall r | r in memory :: r.pointer < free
    requires IsDeclared(conn) && ClosedConnection(conn, refs)
    ensures out.display == conn.display && IsDeclared(out)
    ensures IsContainer(out.client) == IsContainer(conn.client)
    ensures !IsContainer(conn.client) ==> out.client == conn.client
    ensures Kept(memory, memory')
    ensures SameForms(memory, Owned(conn), memory', Owned(out))
    ensures SameViews(memory, Owned(conn), memory', Owned(out)) <==> !HidesDefinedPointer(memory, Owned(conn))
    ensures SameSharing(memory, Owned(conn), memory', Owned(out))
    ensures Detached(memory, memory', Owned(out))
  {
    hide Ok, Copied, Closed, SameForm, SameShape, IsDefinedPointer, IsContainer, IsMap, KindOf, SameForms, SameViews, SameSharing, Detached, HidesDefinedPointer, Kept, AllCopied, WellFormed;
    var copier := new MetadataCopy(memory, refs, free);
    ghost var done: seq<Value>, copies: seq<Value> := [], [];
    assert AllCopied(done, copies, copier.seen) by { NothingCopied(copier.seen); }
    var ok;
    var data; data, ok := CopyMetadata(copier, conn.data, done, copies);
    done, copies := done + [conn.data], copies + [data];
    var labels; labels, ok := CopyMetadata(copier, conn.labels, done, copies);
    done, copies := done + [conn.labels], copies + [labels];
    var sensitive; sensitive, ok := CopyMetadata(copier, conn.sensitiveData, done, copies);
    done, copies := done + [conn.sensitiveData], copies + [sensitive];
    var lifecycle; lifecycle, ok := CopyMetadata(copier, conn.lifecycle, done, copies);
    done, copies := done + [conn.lifecycle], copies + [lifecycle];
    out := conn.(data := data, labels := labels, sensitiveData := sensitive, lifecycle := lifecycle);
    var kind := KindOf(conn.client);
    ContainerKinds(conn.client);
    if kind == MapKind || kind == SliceKind || kind == ArrayKind {
      var client; client, ok := CopyMetadata(copier, conn.client, done, copies);
      done, copies := done + [conn.client], copies + [client];
      out := out.(client := client);
    }
    memory' := copier.mem;
    assert Owned(conn) == done && Owned(out) == copies;
    FinishedCopyIsIsomorphic(copier.Now(), Owned(conn), Owned(out));
    ConcreteTypesSurvive(copier.Now(), Owned(conn), Owned(out));
  }

  lemma NilStaysNil(mem: Memory, v: Value, mem': Memory, w: Value)
    requires SameViewForm(Follow(mem, v, []), Follow(mem', w, []))
    ensures v.Nil? ==> w == v
  {}

  /** Whatever two paths do in the originals v and w, they do in the copies. */
  ghost predicate SharesAlike(mem: Memory, v: Value, w: Value, mem': Memory, v': Value, w': Value) {
    forall p, q :: Meet(mem, v, p, w, q) <==> MeetInCell(mem', v', p, w', q)
  }

  /**
    Cloning a connection whose client is a map, a slice or an array: the client handed out has the form of
    the original, nothing of it lies in the caller's memory, and it shares with the other fields as the
    original does.  A pointer, a scalar or a nil is handed out as it is.
   */
  method CloneThenUseClient(conn: Connection, memory: Memory, ghost refs: set<Ref>, free: nat)
    returns (out: Connection, memory': Memory)
    requires WellFormed(memory, refs) && forall r | r in memory :: r.pointer < free
    requires IsDeclared(conn) && ClosedConnection(conn, refs)
    ensures conn.client.Array? || (conn.client.Refers? && (conn.client.ref.typ.MapOf? || conn.client.ref.typ.SliceOf?)) ==>
      && (forall p :: SameViewForm(Follow(memory, conn.client, p), Follow(memory', out.client, p)))
      && Detached(memory, memory', [out.client])
      && SharesAlike(memory, conn.client, conn.client, memory', out.client, out.client)
      && SharesAlike(memory, conn.client, conn.data, memory', out.client, out.data)
      && SharesAlike(memory, conn.client, conn.labels, memory', out.client, out.labels)
      && SharesAlike(memory, conn.client, conn.sensitiveData, memory', out.client, out.sensitiveData)
      && SharesAlike(memory, conn.client, conn.lifecycle, memory', out.client, out.lifecycle)
    ensures !conn.client.Array? && (conn.client.Refers? ==> conn.client.ref.typ.PointerTo?) ==>
      out.client == conn.client
  {
    hide Closed, WellFormed, Follow, SameViewForm, SameViews, Meet, MeetInCell;
    out, memory' := CloneConnection(conn, memory, refs, free);
    ghost var vs, ws := Owned(conn), Owned(out);
    if IsContainer(conn.client) {
      assert vs[4] == conn.client && ws[4] == out.client;
      NilStaysNil(memory, vs[4], memory', ws[4]);
      forall p ensures SameViewForm(Follow(memory, conn.client, p), Follow(memory', out.client, p)) {
        assert SameViewForm(Follow(memory, vs[4], p), Follow(memory', ws[4], p));
      }
      forall k | 0 <= k < 5 ensures SharesAlike(memory, vs[4], vs[k], memory', ws[4], ws[k]) {
        forall p, q ensures Meet(memory, vs[4], p, vs[k], q) <==> MeetInCell(memory', ws[4], p, ws[k], q) {}
      }
      assert SharesAlike(memory, vs[4], vs[0], memory', ws[4], ws[0]);
      assert SharesAlike(memory, vs[4], vs[1], memory', ws[4], ws[1]);
      assert SharesAlike(memory, vs[4], vs[2], memory', ws[4], ws[2]);
      assert SharesAlike(memory, vs[4], vs[3], memory', ws[4], ws[3]);
      assert SharesAlike(memory, vs[4], vs[4], memory', ws[4], ws[4]);
    }
  }

  lemma NothingCopied(seen: map<Ref, Ref>)
    ensures AllCopied([], [], seen)
  {}
}
