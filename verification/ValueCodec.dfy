/**
  The lossless value codec: the encoder that turns a value into a protobuf tree with sorted map
  entries, and the bounded decoder that turns an untrusted tree back.
 */
module ValueCodec {
  import opened Wrappers
  import opened Decimal
  import opened KeyOrder

  type int64 = n: int | MIN_INT64 <= n <= MAX_INT64
  type uint64 = n: int | 0 <= n <= MAX_UINT64
  type uint32 = n: int | 0 <= n <= 0xffff_ffff

  datatype Stamp = Stamp(seconds: int64, nanos: uint32)

  const MIN_SECONDS: int64 := -62135596800
  const MAX_SECONDS: int64 := 253402300799
  const MAX_NANOS: uint32 := 999999999

  predicate StampInRange(t: Stamp) {
    MIN_SECONDS <= t.seconds <= MAX_SECONDS && t.nanos <= MAX_NANOS
  }

  /** Days from 1 January of year 1 to 1 January of the given year, leap years counted. */
  function DaysBefore(year: int): int {
    365 * (year - 1) + (year - 1) / 4 - (year - 1) / 100 + (year - 1) / 400
  }

  /** Seconds from 1 January 1970 to 1 January of the given year. */
  function YearStart(year: int): int {
    (DaysBefore(year) - DaysBefore(1970)) * 86400
  }

  /** The times in range are those of the years 1 to 9999, to the nanosecond. */
  lemma StampsAreYears(t: Stamp)
    ensures StampInRange(t) <==> YearStart(1) <= t.seconds < YearStart(10000) && t.nanos < 1_000_000_000
  {}

  /** RFC 3339 text of a UTC time and its parser; a text that does not parse yields the zero time. */
  datatype Clock = Clock(format: Stamp -> string, parse: string -> Stamp)

  ghost predicate ValidClock(k: Clock) {
    forall t: Stamp | StampInRange(t) :: k.parse(k.format(t)) == t
  }

  datatype Value =
    | Empty                                        // the zero value, of no kind
    | Null
    | Bool(b: bool)
    | String(s: string)
    | Int(text: string)
    | Uint(text: string)
    | Double(bits: int)
    | Timestamp(text: string)
    | List(elems: seq<Value>)
    | Map(entries: map<string, Value>)

  /** A protobuf value; `Absent` is a nil message, `Unselected` an unset oneof. */
  datatype Proto =
    | Absent
    | Unselected
    | Missing(what: What)                          // a selection whose wrapper or payload is nil
    | NullValue
    | BoolValue(b: bool)
    | StringValue(s: string)
    | Int64Value(i: int64)
    | Uint64Value(u: uint64)
    | DoubleValue(bits: int)
    | TimestampValue(stamp: Stamp)
    | ListValue(values: seq<Proto>)
    | MapValue(items: seq<Item>)

  datatype What = NullMarker | BoolPayload | StringPayload | Int64Payload | Uint64Payload | DoublePayload
                | TimestampPayload | ListPayload | MapPayload

  datatype Item = NoItem | Item(key: string, value: Proto)

  datatype Error =
    | MissingValue | UnsetSelection | MissingPayload(what: What) | TimestampOutOfRange
    | MissingMapEntry | DuplicateMapKey
    | ValueComplexityLimit | ValueNodeLimit

  // ---------- encoding ----------

  ghost function Keys(items: seq<Item>): seq<string>
    requires forall i | 0 <= i < |items| :: items[i].Item?
  {
    seq(|items|, i requires 0 <= i < |items| => items[i].key)
  }

  /** p is an encoding of v; map entries are sorted by key. */
  ghost predicate Encodes(k: Clock, v: Value, p: Proto)
    decreases v
  {
    match v
    case Empty => p == Unselected
    case Null => p == NullValue
    case Bool(b) => p == BoolValue(b)
    case String(s) => p == StringValue(s)
    case Int(text) => p == Int64Value(ParseInt64(text))
    case Uint(text) => p == Uint64Value(ParseUint64(text))
    case Double(bits) => p == DoubleValue(bits)
    case Timestamp(text) => p == TimestampValue(k.parse(text))
    case List(elems) =>
      && p.ListValue? && |p.values| == |elems|
      && forall i | 0 <= i < |elems| :: Encodes(k, elems[i], p.values[i])
    case Map(entries) =>
      && p.MapValue?
      && (forall i | 0 <= i < |p.items| :: p.items[i].Item? && p.items[i].key in entries)
      && Sorted(Keys(p.items)) && Range(Keys(p.items)) == entries.Keys
      && forall i | 0 <= i < |p.items| && p.items[i].key in entries ::
           Encodes(k, entries[p.items[i].key], p.items[i].value)
  }

  method ToValue(k: Clock, v: Value) returns (p: Proto)
    ensures Encodes(k, v, p)
    decreases v, 1
  {
    match v
    case Empty => p := Unselected;
    case Null => p := NullValue;
    case Bool(b) => p := BoolValue(b);
    case String(s) => p := StringValue(s);
    case Int(text) => p := Int64Value(ParseInt64(text));
    case Uint(text) => p := Uint64Value(ParseUint64(text));
    case Double(bits) => p := DoubleValue(bits);
    case Timestamp(text) => p := TimestampValue(k.parse(text));
    case List(elems) =>
      var values: seq<Proto> := [];
      for i := 0 to |elems|
        invariant |values| == i && forall j | 0 <= j < i :: Encodes(k, elems[j], values[j])
      {
        var value := ToValue(k, elems[i]);
        values := values + [value];
      }
      p := ListValue(values);
    case Map(entries) =>
      var items := ToItems(k, v, entries);
      p := MapValue(items);
  }

  method ToItems(k: Clock, v: Value, entries: map<string, Value>) returns (items: seq<Item>)
    requires v == Map(entries)
    ensures Encodes(k, v, MapValue(items))
    decreases v, 0
  {
    hide Sorted, Encodes;
    var keys := SortedKeys(entries.Keys);
    assert forall i | 0 <= i < |keys| :: keys[i] in Range(keys);
    items := [];
    for i := 0 to |keys|
      invariant |items| == i
      invariant forall j | 0 <= j < i :: items[j].Item? && items[j].key == keys[j]
      invariant forall j | 0 <= j < i && items[j].key in entries :: Encodes(k, entries[items[j].key], items[j].value)
    {
      var value := ToValue(k, entries[keys[i]]);
      items := items + [Item(keys[i], value)];
    }
    assert Keys(items) == keys;
    ItemsEncode(k, entries, items);
  }

  lemma ItemsEncode(k: Clock, entries: map<string, Value>, items: seq<Item>)
    requires forall i | 0 <= i < |items| :: items[i].Item? && items[i].key in entries
    requires Sorted(Keys(items)) && Range(Keys(items)) == entries.Keys
    requires forall i | 0 <= i < |items| && items[i].key in entries ::
      Encodes(k, entries[items[i].key], items[i].value)
    ensures Encodes(k, Map(entries), MapValue(items))
  {
    hide Sorted;
  }

  /** A value has one encoding, however its maps are iterated. */
  lemma {:induction false} EncodingIsUnique(k: Clock, v: Value, p: Proto, q: Proto)
    requires Encodes(k, v, p) && Encodes(k, v, q)
    ensures p == q
    decreases v
  {
    match v
    case List(elems) =>
      forall i | 0 <= i < |elems| ensures p.values[i] == q.values[i] {
        EncodingIsUnique(k, elems[i], p.values[i], q.values[i]);
      }
    case Map(entries) =>
      SortedIsUnique(Keys(p.items), Keys(q.items));
      assert |p.items| == |Keys(p.items)| == |q.items|;
      forall i | 0 <= i < |p.items| ensures p.items[i] == q.items[i] {
        assert Keys(p.items)[i] == p.items[i].key && Keys(q.items)[i] == q.items[i].key;
        EncodingIsUnique(k, entries[p.items[i].key], p.items[i].value, q.items[i].value);
      }
    case _ =>
  }

  // ---------- what a tree denotes ----------

  /**
    Every selection set and complete, every map entry present with keys unique among siblings, every
    timestamp in range, and no value more than `room` levels below this one.
   */
  ghost predicate Admissible(p: Proto, room: int)
    decreases p
  {
    && room >= 0
    && match p
       case Absent => false
       case Unselected => false
       case Missing(_) => false
       case TimestampValue(t) => StampInRange(t)
       case ListValue(values) => forall i | 0 <= i < |values| :: Admissible(values[i], room - 1)
       case MapValue(items) =>
         && (forall i | 0 <= i < |items| :: Entered(items, i))
         && (forall i | 0 <= i < |items| && items[i].Item? :: Admissible(items[i].value, room - 1))
       case _ => true
  }

  /** Entry i is present and its key is new. */
  predicate Entered(items: seq<Item>, i: nat)
    requires i < |items|
  {
    items[i].Item? && forall j | 0 <= j < i :: items[j].Item? ==> items[j].key != items[i].key
  }

  function Nodes(p: Proto): (n: nat)
    ensures n >= 1
    decreases p
  {
    match p
    case ListValue(values) => 1 + NodesOf(values)
    case MapValue(items) => 1 + NodesOfItems(items)
    case _ => 1
  }

  function NodesOf(values: seq<Proto>): (n: nat)
    ensures n >= |values|
    decreases values
  {
    if values == [] then 0 else NodesOf(values[..|values| - 1]) + Nodes(values[|values| - 1])
  }

  function NodesOfItems(items: seq<Item>): (n: nat)
    decreases items
  {
    if items == [] then 0
    else
      NodesOfItems(items[..|items| - 1])
      + match items[|items| - 1] case NoItem => 0 case Item(_, value) => Nodes(value)
  }

  /** The value an admissible tree stands for. */
  function Denote(k: Clock, p: Proto): Value
    decreases p
  {
    match p
    case NullValue => Null
    case BoolValue(b) => Bool(b)
    case StringValue(s) => String(s)
    case Int64Value(n) => Int(FormatInt(n))
    case Uint64Value(n) => Uint(FormatInt(n))
    case DoubleValue(bits) => Double(bits)
    case TimestampValue(t) => Timestamp(k.format(t))
    case ListValue(values) => List(seq(|values|, i requires 0 <= i < |values| => Denote(k, values[i])))
    case MapValue(items) => Map(DenoteItems(k, items))
    case _ => Empty
  }

  function DenoteItems(k: Clock, items: seq<Item>): map<string, Value>
    decreases items
  {
    if items == [] then map[]
    else
      var front := DenoteItems(k, items[..|items| - 1]);
      match items[|items| - 1] case NoItem => front case Item(key, value) => front[key := Denote(k, value)]
  }

  // ---------- the bounded decoder ----------

  /** The first entry that is nil or repeats a key, whatever the values are. */
  ghost predicate FirstBadEntry(items: seq<Item>, i: nat, e: Error)
    requires i < |items|
  {
    && !Entered(items, i) && (forall j | 0 <= j < i :: Entered(items, j))
    && e == if items[i].NoItem? then MissingMapEntry else DuplicateMapKey
  }

  /** If any entry is nil or repeats a key, the first such entry is the error, whatever the values hold. */
  ghost predicate BadEntryIsReported(items: seq<Item>, err: Option<Error>) {
    forall i | 0 <= i < |items| && !Entered(items, i) && (forall j | 0 <= j < i :: Entered(items, j)) ::
      err.Some? && FirstBadEntry(items, i, err.value)
  }

  function KeysOf(items: seq<Item>): set<string> {
    set j | 0 <= j < |items| && items[j].Item? :: items[j].key
  }

  lemma EntryCheck(items: seq<Item>, i: nat)
    requires i < |items|
    ensures Entered(items, i) <==> items[i].Item? && items[i].key !in KeysOf(items[..i])
    ensures items[i].Item? ==> KeysOf(items[..i + 1]) == KeysOf(items[..i]) + {items[i].key}
  {
    var a, b := items[..i], items[..i + 1];
    assert forall j | 0 <= j < i :: a[j] == items[j];
    if items[i].Item? {
      forall key ensures key in KeysOf(b) <==> key in KeysOf(a) + {items[i].key} {
        if key in KeysOf(a) {
          var j :| 0 <= j < |a| && a[j].Item? && a[j].key == key;
          assert b[j].key == key;
        }
        assert b[i].key == items[i].key;
      }
    }
  }

  /** What is wrong with a value that is no container. */
  function LeafError(p: Proto): Option<Error> {
    match p
    case Absent => Some(MissingValue)
    case Unselected => Some(UnsetSelection)
    case Missing(what) => Some(MissingPayload(what))
    case TimestampValue(t) => if StampInRange(t) then None else Some(TimestampOutOfRange)
    case _ => None
  }

  /** The first nil or repeated entry, whatever the values hold. */
  ghost function FirstBad(items: seq<Item>): Option<Error> {
    if items == [] then None
    else
      var front, last := items[..|items| - 1], items[|items| - 1];
      if FirstBad(front).Some? then FirstBad(front)
      else if last.NoItem? then Some(MissingMapEntry)
      else if last.key in KeysOf(front) then Some(DuplicateMapKey)
      else None
  }

  /**
    Which error a tree is rejected with, `room` levels and `budget` nodes being left: its own before its
    values', a container's size before its entries, its entries before their values, and the first value's.
   */
  ghost function FirstError(p: Proto, room: int, budget: int): Option<Error>
    decreases p
  {
    if room < 0 || budget <= 0 then Some(ValueComplexityLimit)
    else
      match p
      case ListValue(values) =>
        if |values| > budget - 1 then Some(ValueNodeLimit) else FirstOfValues(values, room - 1, budget - 1)
      case MapValue(items) =>
        if |items| > budget - 1 then Some(ValueNodeLimit)
        else if FirstBad(items).Some? then FirstBad(items)
        else FirstOfItems(items, room - 1, budget - 1)
      case _ => LeafError(p)
  }

  ghost function FirstOfValues(values: seq<Proto>, room: int, budget: int): Option<Error>
    decreases values
  {
    if values == [] then None
    else
      var front := values[..|values| - 1];
      var e := FirstOfValues(front, room, budget);
      if e.Some? then e else FirstError(values[|values| - 1], room, budget - NodesOf(front))
  }

  ghost function FirstOfItems(items: seq<Item>, room: int, budget: int): Option<Error>
    decreases items
  {
    if items == [] then None
    else
      var front := items[..|items| - 1];
      var e := FirstOfItems(front, room, budget);
      if e.Some? then e
      else
        match items[|items| - 1]
        case NoItem => None
        case Item(_, value) => FirstError(value, room, budget - NodesOfItems(front))
  }

  lemma NextValue(values: seq<Proto>, i: nat, room: int, budget: int)
    requires i < |values|
    ensures FirstOfValues(values[..0], room, budget) == None
    ensures var e := FirstOfValues(values[..i], room, budget);
      FirstOfValues(values[..i + 1], room, budget)
      == if e.Some? then e else FirstError(values[i], room, budget - NodesOf(values[..i]))
  {
    assert values[..i + 1][..i] == values[..i];
  }

  lemma {:induction false} FirstValueDecides(values: seq<Proto>, i: nat, room: int, budget: int)
    requires i <= |values| && FirstOfValues(values[..i], room, budget).Some?
    ensures FirstOfValues(values, room, budget) == FirstOfValues(values[..i], room, budget)
  {
    if i == |values| {
      assert values[..i] == values;
    } else {
      assert values[..|values| - 1][..i] == values[..i];
      FirstValueDecides(values[..|values| - 1], i, room, budget);
    }
  }

  lemma NextItem(items: seq<Item>, i: nat, room: int, budget: int)
    requires i < |items|
    ensures FirstOfItems(items[..i + 1], room, budget)
         == var e := FirstOfItems(items[..i], room, budget);
            if e.Some? || items[i].NoItem? then e
            else FirstError(items[i].value, room, budget - NodesOfItems(items[..i]))
    ensures FirstBad(items[..i + 1])
         == if FirstBad(items[..i]).Some? then FirstBad(items[..i])
            else if items[i].NoItem? then Some(MissingMapEntry)
            else if items[i].key in KeysOf(items[..i]) then Some(DuplicateMapKey)
            else None
  {
    hide FirstError, NodesOfItems;
    assert items[..i + 1][..i] == items[..i];
  }

  lemma {:induction false} NoneBad(items: seq<Item>)
    requires FirstBad(items) == None
    ensures forall i | 0 <= i < |items| :: Entered(items, i)
  {
    if items != [] {
      var n := |items| - 1;
      NoneBad(items[..n]);
      EntryCheck(items, n);
      hide FirstBad, KeysOf, Entered;
      forall i | 0 <= i < n ensures Entered(items, i) {
        EnteredInFront(items, n, i);
        assert Entered(items[..n], i);
      }
    }
  }

  lemma {:induction false} FirstBadIsFirst(items: seq<Item>) returns (i: nat)
    requires FirstBad(items).Some?
    ensures i < |items| && FirstBadEntry(items, i, FirstBad(items).value)
  {
    var n := |items| - 1;
    var front := items[..n];
    if FirstBad(front).Some? {
      i := FirstBadIsFirst(front);
      assert front[i] == items[i];
      hide Entered, FirstBad;
      forall j | 0 <= j <= i ensures Entered(front, j) == Entered(items, j) {
        EnteredInFront(items, n, j);
      }
    } else {
      i := n;
      NoneBad(front);
      EntryCheck(items, n);
      hide Entered, KeysOf;
      forall j | 0 <= j < n ensures Entered(items, j) {
        EnteredInFront(items, n, j);
        assert Entered(front, j);
      }
    }
  }

  lemma EnteredInFront(items: seq<Item>, n: nat, i: nat)
    requires i < n <= |items|
    ensures Entered(items[..n], i) == Entered(items, i)
  {
    assert forall j | 0 <= j < n :: items[..n][j] == items[j];
  }

  /** Reporting the first bad entry is reporting it wherever one looks for it. */
  lemma FirstBadSuffices(items: seq<Item>, err: Option<Error>)
    requires FirstBad(items).Some? ==> err == FirstBad(items)
    ensures BadEntryIsReported(items, err)
  {
    if FirstBad(items).Some? {
      var k := FirstBadIsFirst(items);
      FirstIsOnly(items, k, err);
    } else {
      NoneBad(items);
    }
  }

  lemma FirstIsOnly(items: seq<Item>, k: nat, err: Option<Error>)
    requires k < |items| && err.Some? && FirstBadEntry(items, k, err.value)
    ensures BadEntryIsReported(items, err)
  {
    hide Entered;
    forall i | 0 <= i < |items| && !Entered(items, i) && (forall j | 0 <= j < i :: Entered(items, j))
      ensures FirstBadEntry(items, i, err.value)
    {
      assert i == k;
    }
  }

  lemma {:induction false} FirstBadDecides(items: seq<Item>, i: nat)
    requires i <= |items| && FirstBad(items[..i]).Some?
    ensures FirstBad(items) == FirstBad(items[..i])
  {
    if i == |items| {
      assert items[..i] == items;
    } else {
      assert items[..|items| - 1][..i] == items[..i];
      FirstBadDecides(items[..|items| - 1], i);
    }
  }

  /** How many levels of containers may still open below a given depth, itself included. */
  function Levels(maxDepth: nat, depth: nat): nat {
    if depth <= maxDepth then maxDepth + 1 - depth else 0
  }

  ghost predicate ItemsAdmissible(items: seq<Item>, room: int) {
    && (forall i | 0 <= i < |items| :: Entered(items, i))
    && (forall i | 0 <= i < |items| && items[i].Item? :: Admissible(items[i].value, room))
  }

  ghost predicate ValuesAdmissible(values: seq<Proto>, room: int) {
    forall i | 0 <= i < |values| :: Admissible(values[i], room)
  }

  class AdapterDecoder {
    const maxDepth: nat
    const maxNodes: nat
    var err: Option<Error>
    var nodes: nat
    ghost var slots: nat                           // container slots allocated so far

    constructor (maxDepth: nat, maxNodes: nat)
      ensures this.maxDepth == maxDepth && this.maxNodes == maxNodes
      ensures err == None && nodes == 0 && slots == 0
    {
      this.maxDepth, this.maxNodes := maxDepth, maxNodes;
      err, nodes, slots := None, 0, 0;
    }

    /** Records only the first failure. */
    method Fail(e: Error)
      modifies this`err
      ensures err == if old(err).None? then Some(e) else old(err)
    {
      if err.None? {
        err := Some(e);
      }
    }

    /**
      Accepts exactly the admissible trees within both budgets, and then denotes them; a rejected tree
      cannot have made it allocate more than its budgets allow; after a failure nothing more is done.
     */
    method ValueAt(k: Clock, p: Proto, depth: nat) returns (v: Value)
      requires err.None? ==> nodes <= maxNodes
      modifies this
      ensures old(err).Some? ==> err == old(err) && nodes == old(nodes) && slots == old(slots)
      ensures old(err).None? ==>
        (err.None? <==> Admissible(p, maxDepth - depth) && old(nodes) + Nodes(p) <= maxNodes)
      ensures err.None? ==>
        v == Denote(k, p) && nodes == old(nodes) + Nodes(p) && slots == old(slots) + Nodes(p) - 1
      ensures old(err).None? && err.Some? ==>
        && old(nodes) < nodes <= maxNodes + 1
        && slots <= old(slots) + (nodes - old(nodes) - 1) + Levels(maxDepth, depth) * maxNodes
      ensures old(err).None? ==> err == FirstError(p, maxDepth - depth, maxNodes - old(nodes))
      decreases p, 1
    {
      hide Admissible, Nodes, FirstError, Levels, ValuesAdmissible, ItemsAdmissible, FirstBad, LeafError;
      ghost var room, budget := maxDepth - depth, maxNodes - nodes;
      LevelsOk(maxDepth, depth, maxNodes);
      v := Empty;
      if err.Some? {
        return;
      }
      if room < 0 || budget <= 0 {
        NoRoom(p, room, budget);
      } else {
        LeafFacts(p, room, budget);
      }
      nodes := nodes + 1;
      if depth > maxDepth || nodes > maxNodes {
        err := Some(ValueComplexityLimit);
        return;
      }
      match p
      case Absent => Fail(MissingValue);
      case Unselected => Fail(UnsetSelection);
      case Missing(what) => Fail(MissingPayload(what));
      case NullValue => v := Null;
      case BoolValue(b) => v := Bool(b);
      case StringValue(s) => v := String(s);
      case Int64Value(n) => v := Int(FormatInt(n));
      case Uint64Value(n) => v := Uint(FormatInt(n));
      case DoubleValue(bits) => v := Double(bits);
      case TimestampValue(t) =>
        if t.seconds < MIN_SECONDS || t.seconds > MAX_SECONDS || t.nanos > MAX_NANOS {
          Fail(TimestampOutOfRange);
        } else {
          v := Timestamp(k.format(t));
        }
      case ListValue(values) =>
        ListFacts(values, room, budget);
        v := ListAt(k, p, values, depth);
      case MapValue(items) =>
        MapFacts(items, room, budget);
        v := MapAt(k, p, items, depth);
    }

    method ListAt(k: Clock, p: Proto, values: seq<Proto>, depth: nat) returns (v: Value)
      requires p == ListValue(values) && err.None? && nodes <= maxNodes && depth <= maxDepth
      modifies this
      ensures err.None? <==>
        ValuesAdmissible(values, maxDepth - depth - 1) && old(nodes) + NodesOf(values) <= maxNodes
      ensures err.None? ==>
        && v == Denote(k, p) && nodes == old(nodes) + NodesOf(values) && slots == old(slots) + NodesOf(values)
      ensures err.Some? ==>
        && old(nodes) <= nodes <= maxNodes + 1
        && slots <= old(slots) + (nodes - old(nodes)) + Levels(maxDepth, depth) * maxNodes
      ensures err == if |values| > maxNodes - old(nodes) then Some(ValueNodeLimit)
                     else FirstOfValues(values, maxDepth - depth - 1, maxNodes - old(nodes))
      decreases p, 0
    {
      hide Admissible, Nodes, NodesOf, Denote, Levels, LeafError, FirstError, FirstOfValues;
      ghost var room, budget := maxDepth - depth - 1, maxNodes - nodes;
      if |values| > 0 {
        NextValue(values, 0, room, budget);
      } else {
        NoErrors(room, budget);
      }
      v := Empty;
      LevelsBelow(maxDepth, depth, maxNodes);
      NothingDecoded(values);
      if |values| > maxNodes - nodes {
        err := Some(ValueNodeLimit);
        return;
      }
      slots := slots + |values|;
      var elems := seq(|values|, _ => Empty);
      for i := 0 to |values|
        invariant |elems| == |values| && err.None?
        invariant ValuesAdmissible(values[..i], maxDepth - depth - 1)
        invariant nodes == old(nodes) + NodesOf(values[..i]) <= maxNodes
        invariant slots == old(slots) + |values| + NodesOf(values[..i]) - i
        invariant forall j | 0 <= j < i :: elems[j] == Denote(k, values[j])
        invariant FirstOfValues(values[..i], room, budget) == None
      {
        NextValue(values, i, room, budget);
        var elem := ValueAt(k, values[i], depth + 1);
        elems := elems[i := elem];
        NodesOfPrefix(values, i);
        if err.Some? {
          FirstValueDecides(values, i + 1, room, budget);
          return List(elems);
        }
        assert values[..i + 1] == values[..i] + [values[i]];
      }
      assert values[..|values|] == values;
      DenotesList(k, values, elems);
      return List(elems);
    }

    /** A failed value does not end the scan: a nil or repeated entry found later replaces its error. */
    method MapAt(k: Clock, p: Proto, items: seq<Item>, depth: nat) returns (v: Value)
      requires p == MapValue(items) && err.None? && nodes <= maxNodes && depth <= maxDepth
      modifies this
      ensures err.None? <==>
        ItemsAdmissible(items, maxDepth - depth - 1) && old(nodes) + NodesOfItems(items) <= maxNodes
      ensures err.None? ==>
        && v == Denote(k, p) && nodes == old(nodes) + NodesOfItems(items) && slots == old(slots) + NodesOfItems(items)
      ensures err.Some? ==>
        && old(nodes) <= nodes <= maxNodes + 1
        && slots <= old(slots) + (nodes - old(nodes)) + Levels(maxDepth, depth) * maxNodes
      ensures |items| <= maxNodes - old(nodes) ==> BadEntryIsReported(items, err)
      ensures err == if |items| > maxNodes - old(nodes) then Some(ValueNodeLimit)
                     else if FirstBad(items).Some? then FirstBad(items)
                     else FirstOfItems(items, maxDepth - depth - 1, maxNodes - old(nodes))
      decreases p, 0
    {
      hide Admissible, Nodes, NodesOfItems, Denote, DenoteItems, Levels, LeafError, ItemsAdmissible, KeysOf,
           BadEntryIsReported, FirstError, FirstOfItems, FirstBad, Scanned;
      ghost var room, budget, extra := maxDepth - depth - 1, maxNodes - nodes, Levels(maxDepth, depth) * maxNodes;
      v := Empty;
      LevelsBelow(maxDepth, depth, maxNodes);
      if |items| > maxNodes - nodes {
        err := Some(ValueNodeLimit);
        TooManyItems(items, room);
        return;
      }
      slots := slots + |items|;
      var entries: map<string, Value> := map[];
      ScanStarts(k, items, room, budget, extra);
      for i := 0 to |items|
        invariant Scanned(items, i, room, budget, err, nodes - old(nodes), slots - old(slots), extra)
        invariant entries.Keys == KeysOf(items[..i])
        invariant err.None? ==> entries == DenoteItems(k, items[..i]) && nodes <= maxNodes
      {
        ghost var before := err;
        if items[i].NoItem? {
          err := Some(MissingMapEntry);
          ScanStops(items, i, room, budget, before, nodes - old(nodes), slots - old(slots), extra);
          return Empty;
        }
        if items[i].key in entries {
          err := Some(DuplicateMapKey);
          ScanStops(items, i, room, budget, before, nodes - old(nodes), slots - old(slots), extra);
          return Empty;
        }
        label L:
        var value := ValueAt(k, items[i].value, depth + 1);
        ScanGoesOn(items, i, room, budget, old@L(err), old@L(nodes) - old(nodes), old@L(slots) - old(slots), extra,
                   err, nodes - old(nodes), slots - old(slots), maxNodes);
        DenotesOneMore(k, items, i);
        EntryCheck(items, i);
        entries := entries[items[i].key := value];
      }
      assert items[..|items|] == items;
      ScanEnds(items, room, budget, err, nodes - old(nodes), slots - old(slots), extra);
      DenotesMap(k, items);
      return Map(entries);
    }
  }

  lemma LevelsOk(maxDepth: nat, depth: nat, maxNodes: nat)
    ensures Levels(maxDepth, depth) * maxNodes >= 0
  {}

  lemma NoRoom(p: Proto, room: int, budget: int)
    requires room < 0 || budget <= 0
    ensures FirstError(p, room, budget) == Some(ValueComplexityLimit) && Nodes(p) >= 1
    ensures room < 0 ==> !Admissible(p, room)
  {}

  lemma LeafFacts(p: Proto, room: int, budget: int)
    requires room >= 0 && budget > 0
    ensures !p.ListValue? && !p.MapValue? ==>
      && Nodes(p) == 1 && FirstError(p, room, budget) == LeafError(p) && (Admissible(p, room) <==> LeafError(p).None?)
    ensures match p
      case Absent => LeafError(p) == Some(MissingValue)
      case Unselected => LeafError(p) == Some(UnsetSelection)
      case Missing(what) => LeafError(p) == Some(MissingPayload(what))
      case TimestampValue(t) => LeafError(p) == if StampInRange(t) then None else Some(TimestampOutOfRange)
      case _ => LeafError(p) == None
  {}

  lemma ListFacts(values: seq<Proto>, room: int, budget: int)
    requires room >= 0 && budget > 0
    ensures Nodes(ListValue(values)) == 1 + NodesOf(values)
    ensures Admissible(ListValue(values), room) <==> ValuesAdmissible(values, room - 1)
    ensures FirstError(ListValue(values), room, budget)
         == if |values| > budget - 1 then Some(ValueNodeLimit) else FirstOfValues(values, room - 1, budget - 1)
  {
    hide Nodes, FirstOfValues;
    NodesOfList(values);
  }

  lemma NodesOfList(values: seq<Proto>)
    ensures Nodes(ListValue(values)) == 1 + NodesOf(values)
  {}

  lemma MapFacts(items: seq<Item>, room: int, budget: int)
    requires room >= 0 && budget > 0
    ensures Nodes(MapValue(items)) == 1 + NodesOfItems(items)
    ensures Admissible(MapValue(items), room) <==> ItemsAdmissible(items, room - 1)
    ensures FirstError(MapValue(items), room, budget)
         == if |items| > budget - 1 then Some(ValueNodeLimit)
            else if FirstBad(items).Some? then FirstBad(items)
            else FirstOfItems(items, room - 1, budget - 1)
  {
    hide Nodes, FirstOfItems, FirstBad, Entered;
    NodesOfMap(items);
  }

  lemma NodesOfMap(items: seq<Item>)
    ensures Nodes(MapValue(items)) == 1 + NodesOfItems(items)
  {}

  /** What a scan of the first i entries has found, used up and allocated. */
  ghost predicate Scanned(
    items: seq<Item>, i: int, room: int, budget: int, err: Option<Error>, used: int, filled: int, extra: int)
  {
    && 0 <= i <= |items| <= budget && FirstBad(items[..i]) == None && err == FirstOfItems(items[..i], room, budget)
    && (err.None? ==>
          && ItemsAdmissible(items[..i], room) && used == NodesOfItems(items[..i]) <= budget
          && filled == |items| + used - i)
    && (err.Some? ==>
          && 0 <= used <= budget + 1 && filled <= used + extra
          && !(ItemsAdmissible(items[..i], room) && NodesOfItems(items[..i]) <= budget))
  }

  lemma TooManyItems(items: seq<Item>, room: int)
    ensures ItemsAdmissible(items, room) ==> NodesOfItems(items) >= |items|
  {
    EnteredItemsHaveNodes(items);
  }

  lemma ScanStarts(k: Clock, items: seq<Item>, room: int, budget: int, extra: int)
    requires |items| <= budget
    ensures Scanned(items, 0, room, budget, None, 0, |items|, extra)
    ensures DenoteItems(k, items[..0]) == map[] && KeysOf(items[..0]) == {}
  {
    assert items[..0] == [];
  }

  lemma ScanGoesOn(
    items: seq<Item>, i: int, room: int, budget: int, err: Option<Error>, used: int, filled: int, extra: int,
    err': Option<Error>, used': int, filled': int, maxNodes: int)
    requires Scanned(items, i, room, budget, err, used, filled, extra) && i < |items| && budget <= maxNodes
    requires items[i].Item? && items[i].key !in KeysOf(items[..i])
    requires err.Some? ==> err' == err && used' == used && filled' == filled
    requires err.None? ==>
      && (err'.None? <==> Admissible(items[i].value, room) && used + Nodes(items[i].value) <= budget)
      && err' == FirstError(items[i].value, room, budget - used)
    requires err.None? && err'.None? ==>
      used' == used + Nodes(items[i].value) && filled' == filled + Nodes(items[i].value) - 1
    requires err.None? && err'.Some? ==>
      used < used' <= budget + 1 && filled' <= filled + (used' - used - 1) + (extra - maxNodes)
    ensures Scanned(items, i + 1, room, budget, err', used', filled', extra)
  {
    NextItem(items, i, room, budget);
    ItemsPrefix(items, i, room);
    EntryCheck(items, i);
    hide ItemsAdmissible, Admissible, NodesOfItems, Nodes, FirstError, FirstOfItems, FirstBad, KeysOf, Entered;
  }

  lemma ScanStops(
    items: seq<Item>, i: int, room: int, budget: int, err: Option<Error>, used: int, filled: int, extra: int)
    requires Scanned(items, i, room, budget, err, used, filled, extra)
    requires i < |items| <= extra && (items[i].NoItem? || items[i].key in KeysOf(items[..i]))
    ensures var bad := if items[i].NoItem? then Some(MissingMapEntry) else Some(DuplicateMapKey);
      FirstBad(items) == bad && BadEntryIsReported(items, bad)
    ensures !ItemsAdmissible(items, room) && 0 <= used <= budget + 1 && filled <= used + extra
  {
    NextItem(items, i, room, budget);
    FirstBadDecides(items, i + 1);
    EntryCheck(items, i);
    FirstBadSuffices(items, FirstBad(items));
    hide FirstBad, FirstOfItems, KeysOf, Entered, Admissible, NodesOfItems, BadEntryIsReported;
  }

  lemma ScanEnds(
    items: seq<Item>, room: int, budget: int, err: Option<Error>, used: int, filled: int, extra: int)
    requires Scanned(items, |items|, room, budget, err, used, filled, extra)
    ensures FirstBad(items) == None && err == FirstOfItems(items, room, budget) && BadEntryIsReported(items, err)
    ensures err.None? <==> ItemsAdmissible(items, room) && NodesOfItems(items) <= budget
    ensures err.None? ==> used == NodesOfItems(items) && filled == used
    ensures err.Some? ==> 0 <= used <= budget + 1 && filled <= used + extra
  {
    assert items[..|items|] == items;
    FirstBadSuffices(items, err);
    hide ItemsAdmissible, NodesOfItems, FirstOfItems, FirstBad, BadEntryIsReported;
  }

  lemma NoErrors(room: int, budget: int)
    ensures FirstOfValues([], room, budget) == None && FirstOfItems([], room, budget) == None && FirstBad([]) == None
  {}

  lemma NothingDecoded(values: seq<Proto>)
    ensures NodesOf(values[..0]) == 0 && NodesOf(values) >= |values|
  {}

  lemma DenotesList(k: Clock, values: seq<Proto>, elems: seq<Value>)
    requires |elems| == |values| && forall j | 0 <= j < |values| :: elems[j] == Denote(k, values[j])
    ensures List(elems) == Denote(k, ListValue(values))
  {
    assert elems == seq(|values|, i requires 0 <= i < |values| => Denote(k, values[i]));
  }

  lemma DenotesOneMore(k: Clock, items: seq<Item>, i: nat)
    requires i < |items| && items[i].Item?
    ensures DenoteItems(k, items[..i + 1])
         == DenoteItems(k, items[..i])[items[i].key := Denote(k, items[i].value)]
  {
    assert items[..i + 1][..i] == items[..i];
  }

  lemma DenotesMap(k: Clock, items: seq<Item>)
    ensures Denote(k, MapValue(items)) == Map(DenoteItems(k, items))
  {}

  lemma LevelsBelow(maxDepth: nat, depth: nat, maxNodes: nat)
    requires depth <= maxDepth
    ensures Levels(maxDepth, depth) == Levels(maxDepth, depth + 1) + 1
    ensures Levels(maxDepth, depth) * maxNodes == Levels(maxDepth, depth + 1) * maxNodes + maxNodes
  {}

  lemma {:induction false} NodesOfPrefix(values: seq<Proto>, i: nat)
    requires i < |values|
    ensures NodesOf(values[..i + 1]) == NodesOf(values[..i]) + Nodes(values[i])
    ensures NodesOf(values[..i + 1]) <= NodesOf(values)
    decreases |values|
  {
    assert values[..i + 1][..i] == values[..i];
    if i + 1 < |values| {
      var front := values[..|values| - 1];
      NodesOfPrefix(front, i);
      assert front[..i + 1] == values[..i + 1];
    } else {
      assert values[..i + 1] == values;
    }
  }

  lemma {:induction false} EnteredItemsHaveNodes(items: seq<Item>)
    ensures (forall i | 0 <= i < |items| :: Entered(items, i)) ==> NodesOfItems(items) >= |items|
  {
    if items != [] {
      var front := items[..|items| - 1];
      EnteredItemsHaveNodes(front);
      if forall i | 0 <= i < |items| :: Entered(items, i) {
        forall i | 0 <= i < |front| ensures Entered(front, i) {
          assert Entered(items, i);
        }
        assert Entered(items, |items| - 1);
      }
    }
  }

  /** The prefix facts one turn of the map loop uses. */
  lemma ItemsPrefix(items: seq<Item>, i: nat, room: int)
    requires i < |items|
    ensures NodesOfItems(items[..i + 1])
         == NodesOfItems(items[..i]) + match items[i] case NoItem => 0 case Item(_, value) => Nodes(value)
    ensures NodesOfItems(items[..i + 1]) <= NodesOfItems(items)
    ensures ItemsAdmissible(items[..i + 1], room) <==>
      ItemsAdmissible(items[..i], room) && Entered(items, i) && Admissible(items[i].value, room)
    ensures ItemsAdmissible(items, room) ==> ItemsAdmissible(items[..i + 1], room)
  {
    var b := items[..i + 1];
    assert b[..i] == items[..i] && b[i] == items[i];
    NodesOfLast(b);
    ItemsConcatenate(b, items[i + 1..]);
    assert items == b + items[i + 1..];
    AdmissiblePrefix(items, i, room);
    AdmissiblePrefix(items, i + 1, room);
    AdmissibleLast(b, room);
    EnteredInPrefix(items, i + 1);
  }

  lemma NodesOfLast(items: seq<Item>)
    requires items != []
    ensures NodesOfItems(items)
         == NodesOfItems(items[..|items| - 1])
            + match items[|items| - 1] case NoItem => 0 case Item(_, value) => Nodes(value)
  {}

  lemma EnteredInPrefix(items: seq<Item>, n: nat)
    requires n <= |items|
    ensures forall j | 0 <= j < n :: Entered(items[..n], j) == Entered(items, j)
  {}

  lemma AdmissiblePrefix(items: seq<Item>, n: nat, room: int)
    requires n <= |items|
    ensures ItemsAdmissible(items, room) ==> ItemsAdmissible(items[..n], room)
  {
    EnteredInPrefix(items, n);
    hide Entered, Admissible;
  }

  lemma AdmissibleLast(items: seq<Item>, room: int)
    requires items != []
    ensures ItemsAdmissible(items, room) <==>
      && ItemsAdmissible(items[..|items| - 1], room)
      && Entered(items, |items| - 1) && Admissible(items[|items| - 1].value, room)
  {
    var front := items[..|items| - 1];
    EnteredInPrefix(items, |items| - 1);
    assert Entered(items, |items| - 1) ==> items[|items| - 1].Item?;
    hide Entered, Admissible;
    assert forall j | 0 <= j < |items| - 1 :: front[j] == items[j];
  }

  // ---------- the two directions ----------

  /** Values the admission check lets through: canonical integers, UTC timestamps in range, some kind. */
  ghost predicate Canonical(k: Clock, v: Value)
    decreases v
  {
    match v
    case Empty => false
    case Int(text) => CanonicalInt(text, false)
    case Uint(text) => CanonicalInt(text, true)
    case Timestamp(text) => exists t: Stamp :: StampInRange(t) && text == k.format(t)
    case List(elems) => forall i | 0 <= i < |elems| :: Canonical(k, elems[i])
    case Map(entries) => forall key | key in entries :: Canonical(k, entries[key])
    case _ => true
  }

  /** No value lies more than `room` levels below v. */
  ghost predicate Within(v: Value, room: int)
    decreases v
  {
    && room >= 0
    && match v
       case List(elems) => forall i | 0 <= i < |elems| :: Within(elems[i], room - 1)
       case Map(entries) => forall key | key in entries :: Within(entries[key], room - 1)
       case _ => true
  }

  /** An encoding of a canonical value is admissible and denotes that value. */
  lemma {:induction false} EncodingDenotes(k: Clock, v: Value, p: Proto, room: int)
    requires ValidClock(k) && Canonical(k, v) && Within(v, room) && Encodes(k, v, p)
    ensures Admissible(p, room) && Denote(k, p) == v
    decreases v
  {
    hide Sorted, Keys, Range, CanonicalInt, FormatInt, ParseInt64, ParseUint64, Denote, Admissible, ValidClock;
    match v
    case List(elems) =>
      forall i | 0 <= i < |elems| ensures Admissible(p.values[i], room - 1) && Denote(k, p.values[i]) == elems[i] {
        EncodingDenotes(k, elems[i], p.values[i], room - 1);
      }
      DenotesList(k, p.values, elems);
      AdmissibleList(p.values, room);
    case Map(entries) =>
      var items := p.items;
      forall i | 0 <= i < |items|
        ensures items[i].Item? && items[i].key in entries
        ensures Admissible(items[i].value, room - 1) && Denote(k, items[i].value) == entries[items[i].key]
      {
        EncodingDenotes(k, entries[items[i].key], items[i].value, room - 1);
      }
      EncodedMapDenotes(k, items, entries, room);
    case _ => ScalarEncodingDenotes(k, v, p, room);
  }

  lemma AdmissibleList(values: seq<Proto>, room: int)
    requires room >= 0 && forall i | 0 <= i < |values| :: Admissible(values[i], room - 1)
    ensures Admissible(ListValue(values), room)
  {}

  lemma ScalarEncodingDenotes(k: Clock, v: Value, p: Proto, room: int)
    requires ValidClock(k) && Canonical(k, v) && Within(v, room) && Encodes(k, v, p) && !v.List? && !v.Map?
    ensures Admissible(p, room) && Denote(k, p) == v
  {
    hide CanonicalInt, FormatInt, ParseInt64, ParseUint64;
    match v
    case Int(text) => FormatOfParse(text);
    case Uint(text) => FormatOfParse(text);
    case Timestamp(text) =>
      var t: Stamp :| StampInRange(t) && text == k.format(t);
      assert k.parse(k.format(t)) == t;
    case _ =>
  }

  lemma EncodedMapDenotes(k: Clock, items: seq<Item>, entries: map<string, Value>, room: int)
    requires room >= 0 && forall i | 0 <= i < |items| ::
      items[i].Item? && items[i].key in entries && Admissible(items[i].value, room - 1)
    requires forall i | 0 <= i < |items| && items[i].Item? && items[i].key in entries ::
      Denote(k, items[i].value) == entries[items[i].key]
    requires Sorted(Keys(items)) && Range(Keys(items)) == entries.Keys
    ensures Admissible(MapValue(items), room) && Denote(k, MapValue(items)) == Map(entries)
  {
    SortedKeysAreEntered(items);
    hide Sorted, Keys, DenoteItems, Range;
    ItemsDenote(k, items, entries);
  }

  lemma FormatOfParse(text: string)
    ensures CanonicalInt(text, false) ==> FormatInt(ParseInt64(text)) == text
    ensures CanonicalInt(text, true) ==> FormatInt(ParseUint64(text)) == text
  {
    hide FormatInt, ParseInt64, ParseUint64;
    if CanonicalInt(text, false) {
      var n := CanonicalComesFromFormat(text, false);
      ParseFormat(n);
    }
    if CanonicalInt(text, true) {
      var n := CanonicalComesFromFormat(text, true);
      ParseFormat(n);
    }
  }

  lemma SortedKeysAreEntered(items: seq<Item>)
    requires (forall i | 0 <= i < |items| :: items[i].Item?) && Sorted(Keys(items))
    ensures forall i | 0 <= i < |items| :: Entered(items, i)
  {
    forall i, j | 0 <= j < i < |items| ensures items[j].key != items[i].key {
      assert Keys(items)[j] != Keys(items)[i];
    }
  }

  /** Items whose values denote the entries of a map, key by key, denote that map. */
  lemma ItemsDenote(k: Clock, items: seq<Item>, entries: map<string, Value>)
    requires forall i | 0 <= i < |items| :: items[i].Item? && items[i].key in entries
    requires forall i | 0 <= i < |items| :: Entered(items, i)
    requires forall i | 0 <= i < |items| && items[i].Item? && items[i].key in entries ::
      Denote(k, items[i].value) == entries[items[i].key]
    requires Range(Keys(items)) == entries.Keys
    ensures DenoteItems(k, items) == entries
  {
    DenotedKeys(k, items);
    forall key ensures key in DenoteItems(k, items) <==> key in entries {
      if key in entries {
        var i :| 0 <= i < |Keys(items)| && Keys(items)[i] == key;
        assert Entered(items, i) && items[i].key == key;
      }
      if key in DenoteItems(k, items) {
        var i :| 0 <= i < |items| && items[i].Item? && items[i].key == key;
      }
    }
    forall key | key in entries ensures DenoteItems(k, items)[key] == entries[key] {
      var i :| 0 <= i < |Keys(items)| && Keys(items)[i] == key;
      assert Entered(items, i) && items[i].key == key;
    }
  }

  /** With unique keys every entry's value is found under its key, and there are no other keys. */
  lemma {:induction false} DenotedKeys(k: Clock, items: seq<Item>)
    ensures (forall i | 0 <= i < |items| :: Entered(items, i)) ==>
      forall i | 0 <= i < |items| && items[i].Item? ::
        items[i].key in DenoteItems(k, items) && DenoteItems(k, items)[items[i].key] == Denote(k, items[i].value)
    ensures forall key | key in DenoteItems(k, items) :: exists i :: 0 <= i < |items| && items[i].Item? && items[i].key == key
  {
    hide Denote;
    if items != [] {
      var front, last := items[..|items| - 1], items[|items| - 1];
      DenotedKeys(k, front);
      forall key | key in DenoteItems(k, items)
        ensures exists i :: 0 <= i < |items| && items[i].Item? && items[i].key == key
      {
        if key in DenoteItems(k, front) {
          var i :| 0 <= i < |front| && front[i].Item? && front[i].key == key;
          assert items[i].key == key;
        } else {
          assert items[|items| - 1].key == key;
        }
      }
      if forall i | 0 <= i < |items| :: Entered(items, i) {
        assert Entered(items, |items| - 1);
        forall i | 0 <= i < |front| ensures Entered(front, i) {
          assert Entered(items, i);
        }
        forall i | 0 <= i < |items| && items[i].Item?
          ensures items[i].key in DenoteItems(k, items)
          ensures DenoteItems(k, items)[items[i].key] == Denote(k, items[i].value)
        {
          if i < |front| {
            assert front[i] == items[i] && items[i].key != last.key;
          }
        }
      }
    }
  }

  /** What an accepted tree denotes is canonical and no deeper than the tree. */
  lemma {:induction false} DenotedIsCanonical(k: Clock, p: Proto, room: int)
    requires Admissible(p, room)
    ensures Canonical(k, Denote(k, p)) && Within(Denote(k, p), room)
    decreases p
  {
    hide DenoteItems, CanonicalInt, FormatInt;
    match p
    case ListValue(values) =>
      forall i | 0 <= i < |values|
        ensures Canonical(k, Denote(k, values[i])) && Within(Denote(k, values[i]), room - 1)
      {
        DenotedIsCanonical(k, values[i], room - 1);
      }
    case MapValue(items) =>
      forall key | key in DenoteItems(k, items)
        ensures Canonical(k, DenoteItems(k, items)[key]) && Within(DenoteItems(k, items)[key], room - 1)
      {
        var i := EntryOf(k, items, key);
        DenotedIsCanonical(k, items[i].value, room - 1);
      }
    case _ => DenotedScalarIsCanonical(k, p, room);
  }

  /** The item a denoted entry comes from. */
  lemma EntryOf(k: Clock, items: seq<Item>, key: string) returns (i: nat)
    requires key in DenoteItems(k, items) && forall i | 0 <= i < |items| :: Entered(items, i)
    ensures i < |items| && items[i].Item? && items[i].key == key
    ensures DenoteItems(k, items)[key] == Denote(k, items[i].value)
  {
    hide Denote, DenoteItems;
    DenotedKeys(k, items);
    i :| 0 <= i < |items| && items[i].Item? && items[i].key == key;
  }

  lemma DenotedScalarIsCanonical(k: Clock, p: Proto, room: int)
    requires Admissible(p, room) && !p.ListValue? && !p.MapValue?
    ensures Canonical(k, Denote(k, p)) && Within(Denote(k, p), room)
  {
    hide CanonicalInt, FormatInt;
    match p
    case Int64Value(n) => FormatIsCanonical(n, false);
    case Uint64Value(n) => FormatIsCanonical(n, true);
    case _ =>
  }

  lemma {:induction false} ItemsConcatenate(a: seq<Item>, b: seq<Item>)
    ensures NodesOfItems(a + b) == NodesOfItems(a) + NodesOfItems(b)
  {
    hide Nodes;
    if b == [] {
      assert a + b == a;
    } else {
      ItemsConcatenate(a, b[..|b| - 1]);
      assert (a + b)[..|a + b| - 1] == a + b[..|b| - 1];
    }
  }

  ghost predicate UniqueItems(items: seq<Item>) {
    && (forall i | 0 <= i < |items| :: items[i].Item?)
    && (forall i, j | 0 <= i < j < |items| && items[i].Item? && items[j].Item? :: items[i].key != items[j].key)
  }

  /** Under equal keys lie equally many nodes. */
  ghost predicate SameWeights(a: seq<Item>, b: seq<Item>) {
    forall i, j | 0 <= i < |a| && 0 <= j < |b| && a[i].Item? && b[j].Item? && a[i].key == b[j].key ::
      Nodes(a[i].value) == Nodes(b[j].value)
  }

  ghost predicate Weighed(items: seq<Item>, weights: map<string, nat>) {
    forall i | 0 <= i < |items| ::
      items[i].Item? && items[i].key in weights && weights[items[i].key] == Nodes(items[i].value)
  }

  lemma {:induction false} NodesAreSum(items: seq<Item>, weights: map<string, nat>)
    requires Weighed(items, weights)
    ensures NodesOfItems(items) == Sum(weights, Keys(items))
  {
    hide Nodes;
    if items != [] {
      NodesAreSum(items[..|items| - 1], weights);
      assert Keys(items)[..|items| - 1] == Keys(items[..|items| - 1]);
    }
  }

  ghost function WeightOf(items: seq<Item>, key: string): nat
    requires key in KeysOf(items)
  {
    var i :| 0 <= i < |items| && items[i].Item? && items[i].key == key;
    Nodes(items[i].value)
  }

  lemma ListedKeys(items: seq<Item>)
    requires UniqueItems(items)
    ensures Unique(Keys(items)) && Range(Keys(items)) == KeysOf(items)
  {
    forall key ensures key in Range(Keys(items)) <==> key in KeysOf(items) {
      if key in KeysOf(items) {
        var i :| 0 <= i < |items| && items[i].Item? && items[i].key == key;
        assert Keys(items)[i] == key;
      }
    }
  }

  /** Reordering entries does not change how many nodes there are. */
  lemma SameItemsSameNodes(a: seq<Item>, b: seq<Item>)
    requires UniqueItems(a) && UniqueItems(b) && KeysOf(a) == KeysOf(b) && SameWeights(a, b)
    ensures NodesOfItems(a) == NodesOfItems(b)
  {
    hide Nodes, NodesOfItems;
    var weights := map key | key in KeysOf(a) :: WeightOf(a, key);
    assert forall i | 0 <= i < |b| :: b[i].key in KeysOf(b);
    NodesAreSum(a, weights);
    NodesAreSum(b, weights);
    ListedKeys(a);
    ListedKeys(b);
    SumIgnoresOrder(weights, Keys(a), Keys(b));
  }

  /** Re-encoding an accepted tree only sorts its map entries: not one node more or less. */
  lemma {:induction false} ReencodingKeepsNodes(k: Clock, p: Proto, room: int, q: Proto)
    requires Admissible(p, room) && Encodes(k, Denote(k, p), q)
    ensures Nodes(q) == Nodes(p)
    decreases p
  {
    hide CanonicalInt, FormatInt, ParseInt64, ParseUint64, DenoteItems, KeysOf, UniqueItems, Sorted, Range, Keys,
         NodesOf, NodesOfItems;
    match p
    case ListValue(values) =>
      forall i | 0 <= i < |values| ensures Nodes(q.values[i]) == Nodes(values[i]) {
        ReencodingKeepsNodes(k, values[i], room - 1, q.values[i]);
      }
      SameValuesSameNodes(values, q.values);
    case MapValue(items) =>
      ReencodedItems(k, items, q.items);
      forall i, j | 0 <= i < |items| && 0 <= j < |q.items| && items[i].Item? && q.items[j].Item?
                    && items[i].key == q.items[j].key
        ensures Nodes(items[i].value) == Nodes(q.items[j].value)
      {
        ReencodingKeepsNodes(k, items[i].value, room - 1, q.items[j].value);
      }
      SameItemsSameNodes(items, q.items);
    case _ =>
  }

  lemma {:induction false} SameValuesSameNodes(a: seq<Proto>, b: seq<Proto>)
    requires |a| == |b| && forall i | 0 <= i < |a| :: Nodes(a[i]) == Nodes(b[i])
    ensures NodesOf(a) == NodesOf(b)
  {
    hide Nodes;
    if a != [] {
      SameValuesSameNodes(a[..|a| - 1], b[..|b| - 1]);
    }
  }

  lemma ReencodedItems(k: Clock, items: seq<Item>, sorted: seq<Item>)
    requires forall i | 0 <= i < |items| :: Entered(items, i)
    requires Encodes(k, Map(DenoteItems(k, items)), MapValue(sorted))
    ensures UniqueItems(items) && UniqueItems(sorted) && KeysOf(items) == KeysOf(sorted)
    ensures forall i, j | 0 <= i < |items| && 0 <= j < |sorted| && items[i].Item? && sorted[j].Item?
                          && items[i].key == sorted[j].key ::
      Encodes(k, Denote(k, items[i].value), sorted[j].value)
  {
    hide Denote, DenoteItems, Le;
    DenotedKeys(k, items);
    UniqueByEntry(items);
    UniqueBySorting(sorted);
    forall key ensures key in KeysOf(items) <==> key in KeysOf(sorted) {
      if key in KeysOf(items) {
        assert key in DenoteItems(k, items) && key in Range(Keys(sorted));
        var j :| 0 <= j < |Keys(sorted)| && Keys(sorted)[j] == key;
        assert sorted[j].key == key;
      }
    }
  }

  lemma UniqueByEntry(items: seq<Item>)
    requires forall i | 0 <= i < |items| :: Entered(items, i)
    ensures UniqueItems(items)
  {
    forall i, j | 0 <= i < j < |items| && items[i].Item? && items[j].Item? ensures items[i].key != items[j].key {
      assert Entered(items, j);
    }
    forall i | 0 <= i < |items| ensures items[i].Item? {
      assert Entered(items, i);
    }
  }

  lemma UniqueBySorting(items: seq<Item>)
    requires (forall i | 0 <= i < |items| :: items[i].Item?) && Sorted(Keys(items))
    ensures UniqueItems(items)
  {
    forall i, j | 0 <= i < j < |items| ensures items[i].key != items[j].key {
      assert Keys(items)[i] != Keys(items)[j];
    }
  }

  /** A whole decode: the accept condition, the value, and the bound on what any input can allocate. */
  method Decode(k: Clock, p: Proto, maxDepth: nat, maxNodes: nat)
    returns (v: Value, err: Option<Error>, ghost slots: nat)
    ensures err.None? <==> Admissible(p, maxDepth) && Nodes(p) <= maxNodes
    ensures err == FirstError(p, maxDepth, maxNodes)
    ensures err.None? ==> v == Denote(k, p) && slots == Nodes(p) - 1
    ensures slots <= (maxDepth + 2) * maxNodes
  {
    hide Admissible, Nodes, Denote, LeafError;
    var d := new AdapterDecoder(maxDepth, maxNodes);
    v := d.ValueAt(k, p, 0);
    err, slots := d.err, d.slots;
    assert Levels(maxDepth, 0) * maxNodes == (maxDepth + 1) * maxNodes;
    assert (maxDepth + 2) * maxNodes == (maxDepth + 1) * maxNodes + maxNodes;
    SlotsFit(maxDepth, maxNodes);
  }

  lemma SlotsFit(maxDepth: nat, maxNodes: nat)
    ensures (maxDepth + 1) * maxNodes >= 0
  {}

  /** Encoding and decoding a canonical value within the limits gives it back. */
  method RoundTrip(k: Clock, v: Value, maxDepth: nat, maxNodes: nat)
    returns (p: Proto, out: Value, err: Option<Error>)
    requires ValidClock(k) && Canonical(k, v) && Within(v, maxDepth)
    ensures Encodes(k, v, p)
    ensures err.None? <==> Nodes(p) <= maxNodes
    ensures err.None? ==> out == v
  {
    hide Canonical, Within, Encodes, Nodes, Denote, ValidClock, Admissible;
    p := ToValue(k, v);
    EncodingDenotes(k, v, p, maxDepth);
    ghost var slots;
    out, err, slots := Decode(k, p, maxDepth, maxNodes);
  }

  /** Decoding, encoding and decoding again is decoding: an accepted tree stays accepted and means the same. */
  method DecodeAgain(k: Clock, p: Proto, maxDepth: nat, maxNodes: nat)
    returns (v: Value, err: Option<Error>, again: Value, againErr: Option<Error>)
    requires ValidClock(k)
    ensures err.None? <==> Admissible(p, maxDepth) && Nodes(p) <= maxNodes
    ensures err.None? ==> v == Denote(k, p) && againErr.None? && again == v
  {
    hide Canonical, Within, Encodes, Nodes, Denote, ValidClock, Admissible;
    ghost var slots;
    v, err, slots := Decode(k, p, maxDepth, maxNodes);
    again, againErr := Empty, None;
    if err.None? {
      var q := ToValue(k, v);
      DenotedIsCanonical(k, p, maxDepth);
      EncodingDenotes(k, v, q, maxDepth);
      ReencodingKeepsNodes(k, p, maxDepth, q);
      again, againErr, slots := Decode(k, q, maxDepth, maxNodes);
    }
  }
}
