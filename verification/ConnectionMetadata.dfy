/**
  Size accounting for connection metadata: how many bytes the JSON text of a value, an entry, a patch
  or a snapshot has, computed without producing the text and abandoned once a budget is exceeded.
  A string holds one byte in each character.
 */
module ConnectionMetadata {
  import opened Wrappers
  import opened Decimal
  import opened KeyOrder

  const MAX_KEY_BYTES: nat := 256
  const MAX_ENTRIES: nat := 128
  const MAX_ENTRY_BYTES: nat := 16384
  const MAX_DEPTH: nat := 16
  const MAX_SNAPSHOT_BYTES: nat := 262144
  const MAX_ERROR_CODE_BYTES: nat := 128
  const MAX_ERROR_MESSAGE_BYTES: nat := 1024
  const MAX_SAFE_INTEGER: int := 9007199254740991

  // ---------- JSON strings ----------

  function Hex(d: int): char
    requires 0 <= d < 16
  {
    if d < 10 then '0' + d as char else 'a' + (d - 10) as char
  }

  /** U+2028 or U+2029, three bytes of UTF-8. */
  predicate IsLineSeparator(s: string, i: nat) {
    && i + 2 < |s| && s[i] == '\U{00e2}' && s[i + 1] == '\U{0080}'
    && (s[i + 2] == '\U{00a8}' || s[i + 2] == '\U{00a9}')
  }

  predicate HasShortEscape(c: char) {
    c == '"' || c == '\\' || c == '\U{0008}' || c == '\U{000c}' || c == '\n' || c == '\r' || c == '\t'
  }

  predicate NeedsUnicodeEscape(c: char) {
    c == '<' || c == '>' || c == '&' || c < ' '
  }

  function EscapeByte(c: char): string {
    if c == '"' then "\\\""
    else if c == '\\' then "\\\\"
    else if c == '\U{0008}' then "\\b"
    else if c == '\U{000c}' then "\\f"
    else if c == '\n' then "\\n"
    else if c == '\r' then "\\r"
    else if c == '\t' then "\\t"
    else if NeedsUnicodeEscape(c) then "\\u00" + [Hex(c as int / 16 % 16), Hex(c as int % 16)]
    else [c]
  }

  function Escaped(s: string): string {
    if s == "" then ""
    else if IsLineSeparator(s, 0) then
      "\\u202" + (if s[2] == '\U{00a8}' then "8" else "9") + Escaped(s[3..])
    else EscapeByte(s[0]) + Escaped(s[1..])
  }

  /** The JSON text of a valid UTF-8 string, as the HTML-safe encoder writes it. */
  function Quoted(s: string): string {
    "\"" + Escaped(s) + "\""
  }

  /** One pass over the bytes; it never builds the text. */
  method QuotedJSONSize(s: string) returns (size: nat)
    ensures size == |Quoted(s)|
  {
    size := 2;
    var i := 0;
    assert s[0..] == s;
    while i < |s|
      invariant 0 <= i <= |s|
      invariant size + |Escaped(s[i..])| == |Quoted(s)|
    {
      var c := s[i];
      EscapedStep(s, i);
      if HasShortEscape(c) {
        size := size + 2;
      } else if c == '<' || c == '>' || c == '&' {
        size := size + 6;
      } else if c < ' ' {
        size := size + 6;
      } else if c == '\U{00e2}' && i + 2 < |s| && s[i + 1] == '\U{0080}'
                && (s[i + 2] == '\U{00a8}' || s[i + 2] == '\U{00a9}') {
        size := size + 6;
        i := i + 2;
      } else {
        size := size + 1;
      }
      i := i + 1;
    }
  }

  lemma EscapedStep(s: string, i: nat)
    requires i < |s|
    ensures if IsLineSeparator(s, i) then |Escaped(s[i..])| == 6 + |Escaped(s[i + 3..])|
            else |Escaped(s[i..])| == |EscapeByte(s[i])| + |Escaped(s[i + 1..])|
    ensures IsLineSeparator(s, i) ==> !HasShortEscape(s[i]) && !NeedsUnicodeEscape(s[i])
  {
    assert s[i..][1..] == s[i + 1..];
    if IsLineSeparator(s, i) {
      assert s[i..][3..] == s[i + 3..];
    }
  }

  lemma {:induction false} QuotedIsLonger(s: string)
    ensures |Escaped(s)| >= |s|
    decreases |s|
  {
    if s != "" {
      QuotedIsLonger(if IsLineSeparator(s, 0) then s[3..] else s[1..]);
    }
  }

  // ---------- values ----------

  type Printed = s: string | |s| > 0 witness "0"

  /** A printed float: what strconv appends, whether in exponent form, and whether JavaScript keeps it. */
  datatype Float = Float(safe: bool, exponent: bool, appended: Printed)

  /** The encoder drops the leading zero of a two-digit negative exponent. */
  function FloatText(f: Float): string {
    var n := |f.appended|;
    if f.exponent && n >= 4 && f.appended[n - 4] == 'e' && f.appended[n - 3] == '-' && f.appended[n - 2] == '0' then
      f.appended[..n - 2] + f.appended[n - 1..]
    else f.appended
  }

  /** Values as reflection sees them; maps and slices refer to memory, so they may be shared or cyclic. */
  datatype GoValue =
    | Invalid
    | NilInterface
    | Interface(dynamic: GoValue)
    | JSONNumber(text: string)
    | CustomEncoder
    | Bool(b: bool)
    | Str(s: string)
    | Int(n: int)
    | Uint(u: nat)
    | Float64(f: Float)
    | NilMap(stringKeys: bool)
    | MapRef(stringKeys: bool, mapAddr: nat)
    | ByteSlice
    | NilSlice
    | SliceRef(sliceAddr: nat)
    | Array(elems: seq<GoValue>)
    | Other

  datatype Node = Object(entries: map<string, GoValue>) | Elements(elements: seq<GoValue>)
  type Memory = map<nat, Node>

  /** UTF-8 validity, JSON numbers JavaScript keeps exactly, and the text check with its required flag. */
  datatype Rules = Rules(utf8: string -> bool, number: string -> bool, text: (string, bool) -> bool)

  function BoolText(b: bool): string {
    if b then "true" else "false"
  }

  /** The elements an array or a slice shows; a dangling reference shows none. */
  function ElementsAt(mem: Memory, addr: nat): seq<GoValue> {
    if addr in mem && mem[addr].Elements? then mem[addr].elements else []
  }

  function EntriesAt(mem: Memory, addr: nat): map<string, GoValue> {
    if addr in mem && mem[addr].Object? then mem[addr].entries else map[]
  }

  /** What is visited under an address is what memory holds there. */
  lemma MemoryIsShown(mem: Memory, addr: nat)
    ensures addr in mem ==> mem[addr] == Object(EntriesAt(mem, addr)) || mem[addr] == Elements(ElementsAt(mem, addr))
  {}

  function Height(room: int): nat {
    if room < 0 then 0 else room + 1
  }

  /**
    The JSON text of a value with at most `room` container levels below it, or nothing if it is deeper
    than that -- as every cyclic value is -- or holds something that is no plain JSON.
   */
  ghost function ValueText(r: Rules, mem: Memory, v: GoValue, room: int): Option<string>
    decreases Height(room), 0, v
  {
    if room < 0 then None
    else
      match v
      case Invalid => Some("null")
      case NilInterface => Some("null")
      case Interface(d) => ValueText(r, mem, d, room)
      case JSONNumber(text) => if r.number(text) then Some(text) else None
      case Bool(b) => Some(BoolText(b))
      case Str(s) => if r.utf8(s) then Some(Quoted(s)) else None
      case Int(n) => if -MAX_SAFE_INTEGER <= n <= MAX_SAFE_INTEGER then Some(FormatInt(n)) else None
      case Uint(n) => if n <= MAX_SAFE_INTEGER then Some(FormatInt(n)) else None
      case Float64(f) => if f.safe then Some(FloatText(f)) else None
      case NilMap(stringKeys) => if stringKeys then Some("null") else None
      case MapRef(stringKeys, addr) =>
        var m := EntriesAt(mem, addr);
        if stringKeys && AllMembersOk(r, mem, m, room - 1) then
          Some("{" + Members(MemberTexts(r, mem, m, room - 1), Listing(m.Keys)) + "}")
        else None
      case NilSlice => Some("null")
      case SliceRef(addr) =>
        var text := ElementsText(r, mem, ElementsAt(mem, addr), room - 1);
        if text.None? then None else Some("[" + text.value + "]")
      case Array(es) =>
        var text := ElementsText(r, mem, es, room - 1);
        if text.None? then None else Some("[" + text.value + "]")
      case _ => None
  }

  ghost function ElementsText(r: Rules, mem: Memory, es: seq<GoValue>, room: int): Option<string>
    decreases Height(room), 0, es
  {
    if es == [] then Some("")
    else
      var front := ElementsText(r, mem, es[..|es| - 1], room);
      var last := ValueText(r, mem, es[|es| - 1], room);
      if front.None? || last.None? then None
      else Some(front.value + (if |es| > 1 then "," else "") + last.value)
  }

  ghost predicate AllMembersOk(r: Rules, mem: Memory, m: map<string, GoValue>, room: int)
    decreases Height(room), 1
  {
    forall k | k in m :: r.utf8(k) && ValueText(r, mem, m[k], room).Some?
  }

  /** Key, colon and value of every member that has a text. */
  ghost function MemberTexts(r: Rules, mem: Memory, m: map<string, GoValue>, room: int): map<string, string>
    decreases Height(room), 1
  {
    map k | k in m && r.utf8(k) && ValueText(r, mem, m[k], room).Some? ::
      Quoted(k) + ":" + ValueText(r, mem, m[k], room).value
  }

  /** The listed members, separated by commas. */
  function Members(texts: map<string, string>, ks: seq<string>): string {
    if ks == [] then ""
    else
      Members(texts, ks[..|ks| - 1]) + (if |ks| > 1 then "," else "")
      + if ks[|ks| - 1] in texts then texts[ks[|ks| - 1]] else ""
  }

  // ---------- the budget ----------

  lemma {:induction false} ElementsPrefix(r: Rules, mem: Memory, es: seq<GoValue>, i: nat, room: int)
    requires i < |es|
    ensures ElementsText(r, mem, es[..i + 1], room)
         == (var front := ElementsText(r, mem, es[..i], room);
             var last := ValueText(r, mem, es[i], room);
             if front.None? || last.None? then None
             else Some(front.value + (if i > 0 then "," else "") + last.value))
    ensures ElementsText(r, mem, es, room).Some? ==>
      && ElementsText(r, mem, es[..i + 1], room).Some?
      && |ElementsText(r, mem, es[..i + 1], room).value| <= |ElementsText(r, mem, es, room).value|
    decreases |es|
  {
    hide ValueText;
    assert es[..i + 1][..i] == es[..i];
    if i + 1 < |es| {
      var front := es[..|es| - 1];
      ElementsPrefix(r, mem, front, i, room);
      assert front[..i + 1] == es[..i + 1];
    } else {
      assert es[..i + 1] == es;
    }
  }

  function Lengths(texts: map<string, string>): map<string, nat> {
    map k | k in texts :: |texts[k]|
  }

  function Commas(n: nat): nat {
    if n == 0 then 0 else n - 1
  }

  lemma {:induction false} MembersLength(texts: map<string, string>, ks: seq<string>)
    ensures |Members(texts, ks)| == Sum(Lengths(texts), ks) + Commas(|ks|)
  {
    if ks != [] {
      MembersLength(texts, ks[..|ks| - 1]);
    }
  }

  class MetadataValueBudget {
    var bytes: nat
    ghost var visits: nat                          // values looked at, interfaces not counted

    constructor ()
      ensures bytes == 0 && visits == 0
    {
      bytes, visits := 0, 0;
    }

    method Add(size: nat) returns (ok: bool)
      modifies this`bytes
      ensures bytes == old(bytes) + size
      ensures ok <==> bytes <= MAX_ENTRY_BYTES
    {
      bytes := bytes + size;
      ok := bytes <= MAX_ENTRY_BYTES;
    }

    /**
      Accepts exactly the values that have a text within depth and budget, and then has added its length.
      However large, deep or cyclic the value, it looks at no more values than the budget has bytes, plus one.
     */
    method Visit(r: Rules, mem: Memory, v: GoValue, depth: nat) returns (ok: bool)
      requires bytes <= MAX_ENTRY_BYTES && !r.number("")
      modifies this
      ensures ok <==>
        && ValueText(r, mem, v, MAX_DEPTH - depth).Some?
        && old(bytes) + |ValueText(r, mem, v, MAX_DEPTH - depth).value| <= MAX_ENTRY_BYTES
      ensures ok ==> bytes == old(bytes) + |ValueText(r, mem, v, MAX_DEPTH - depth).value|
      ensures ok ==> visits - old(visits) <= bytes - old(bytes)
      ensures !ok ==> visits <= old(visits) + (MAX_ENTRY_BYTES - old(bytes)) + 1
      decreases Height(MAX_DEPTH - depth), 1, v
    {
      hide FormatInt, Quoted, AllMembersOk, MemberTexts, Members, ElementsText, EntriesAt, ElementsAt, FloatText;
      LeafSizes(v);
      if !v.Interface? {
        visits := visits + 1;
      }
      if depth > MAX_DEPTH {
        return false;
      }
      match v
      case Invalid => ok := Add(4);
      case NilInterface => ok := Add(4);
      case Interface(d) => ok := Visit(r, mem, d, depth);
      case JSONNumber(text) =>
        ok := Add(|text|);
        if ok {
          ok := r.number(text);
        }
      case CustomEncoder => ok := false;
      case Bool(b) => ok := Add(if b then 4 else 5);
      case Str(s) =>
        if |s| > MAX_ENTRY_BYTES || !r.utf8(s) {
          return false;
        }
        var n := QuotedJSONSize(s);
        ok := Add(n);
      case Int(n) =>
        if n < -MAX_SAFE_INTEGER || n > MAX_SAFE_INTEGER {
          return false;
        }
        ok := Add(|FormatInt(n)|);
      case Uint(n) =>
        if n > MAX_SAFE_INTEGER {
          return false;
        }
        ok := Add(|FormatInt(n)|);
      case Float64(f) =>
        if !f.safe {
          return false;
        }
        var size := FloatSize(f);
        ok := Add(size);
      case NilMap(stringKeys) =>
        if !stringKeys {
          return false;
        }
        ok := Add(4);
      case MapRef(stringKeys, addr) =>
        if !stringKeys {
          return false;
        }
        ok := VisitMembers(r, mem, EntriesAt(mem, addr), depth);
      case ByteSlice => ok := false;
      case NilSlice => ok := Add(4);
      case SliceRef(addr) => ok := VisitElements(r, mem, ElementsAt(mem, addr), depth);
      case Array(es) => ok := VisitElements(r, mem, es, depth);
      case Other => ok := false;
    }

    method FloatSize(f: Float) returns (size: nat)
      ensures size == |FloatText(f)|
    {
      size := |f.appended|;
      if f.exponent && size >= 4 && f.appended[size - 4] == 'e' && f.appended[size - 3] == '-'
         && f.appended[size - 2] == '0' {
        size := size - 1;
      }
    }

    method VisitElements(r: Rules, mem: Memory, es: seq<GoValue>, depth: nat) returns (ok: bool)
      requires bytes <= MAX_ENTRY_BYTES && !r.number("") && depth <= MAX_DEPTH
      modifies this
      ensures ok <==>
        && ElementsText(r, mem, es, MAX_DEPTH - depth - 1).Some?
        && old(bytes) + 2 + |ElementsText(r, mem, es, MAX_DEPTH - depth - 1).value| <= MAX_ENTRY_BYTES
      ensures ok ==> bytes == old(bytes) + 2 + |ElementsText(r, mem, es, MAX_DEPTH - depth - 1).value|
      ensures ok ==> visits - old(visits) + 2 <= bytes - old(bytes)
      ensures !ok ==> visits <= old(visits) + (MAX_ENTRY_BYTES - old(bytes))
      decreases Height(MAX_DEPTH - depth), 0
    {
      hide ValueText, ElementsText;
      ghost var room := MAX_DEPTH - depth - 1;
      NoElements(r, mem, es, room);
      ok := Add(2);
      if !ok {
        return;
      }
      for i := 0 to |es|
        invariant ok && bytes <= MAX_ENTRY_BYTES
        invariant ElementsText(r, mem, es[..i], room).Some?
        invariant bytes == old(bytes) + 2 + |ElementsText(r, mem, es[..i], room).value|
        invariant visits - old(visits) + 2 <= bytes - old(bytes)
      {
        ElementsPrefix(r, mem, es, i, room);
        if i > 0 {
          ok := Add(1);
          if !ok {
            return;
          }
        }
        ok := Visit(r, mem, es[i], depth + 1);
        if !ok {
          return;
        }
      }
      assert es[..|es|] == es;
    }

    method VisitMembers(r: Rules, mem: Memory, m: map<string, GoValue>, depth: nat) returns (ok: bool)
      requires bytes <= MAX_ENTRY_BYTES && !r.number("") && depth <= MAX_DEPTH
      modifies this
      ensures ok <==>
        && AllMembersOk(r, mem, m, MAX_DEPTH - depth - 1)
        && old(bytes) + 2 + MembersSize(r, mem, m, MAX_DEPTH - depth - 1) <= MAX_ENTRY_BYTES
      ensures ok ==> bytes == old(bytes) + 2 + MembersSize(r, mem, m, MAX_DEPTH - depth - 1)
      ensures ok ==> visits - old(visits) + 2 <= bytes - old(bytes)
      ensures !ok ==> visits <= old(visits) + (MAX_ENTRY_BYTES - old(bytes))
      decreases Height(MAX_DEPTH - depth), 0
    {
      hide ValueText, AllMembersOk, MemberTexts, MembersSize, Sum, Range, Unique, Lengths, Quoted;
      ghost var room := MAX_DEPTH - depth - 1;
      ghost var weights := Lengths(MemberTexts(r, mem, m, room));
      ok := Add(2);
      if !ok {
        return;
      }
      var todo := m.Keys;
      var first := true;
      ghost var order: seq<string> := [];
      NothingListed(weights);
      while todo != {}
        invariant ok && bytes <= MAX_ENTRY_BYTES && todo <= m.Keys
        invariant Unique(order) && Range(order) == m.Keys - todo && (first <==> order == [])
        invariant forall k | k in m && k !in todo :: r.utf8(k) && ValueText(r, mem, m[k], room).Some?
        invariant bytes == old(bytes) + 2 + Sum(weights, order) + Commas(|order|)
        invariant visits - old(visits) + 2 <= bytes - old(bytes)
        decreases todo
      {
        var k :| k in todo;
        MemberStep(r, mem, m, room, order, k);
        QuotedKeyIsLonger(k);
        if |k| > MAX_ENTRY_BYTES || !r.utf8(k) {
          return false;
        }
        var n := QuotedJSONSize(k);
        n := n + 1;
        if !first {
          n := n + 1;
        }
        first := false;
        ok := Add(n);
        if !ok {
          return;
        }
        ok := Visit(r, mem, m[k], depth + 1);
        if !ok {
          return;
        }
        order := order + [k];
        todo := todo - {k};
      }
      MembersDone(r, mem, m, room, order);
    }
  }

  /** No leaf has an empty text, and quoting never shortens. */
  lemma LeafSizes(v: GoValue)
    ensures v.Str? ==> |Quoted(v.s)| >= |v.s| + 2
    ensures v.Int? ==> |FormatInt(v.n)| > 0
    ensures v.Uint? ==> |FormatInt(v.u)| > 0
    ensures v.Float64? ==> |FloatText(v.f)| > 0
  {
    if v.Str? {
      QuotedIsLonger(v.s);
    }
  }

  lemma NoElements(r: Rules, mem: Memory, es: seq<GoValue>, room: int)
    ensures ElementsText(r, mem, es[..0], room) == Some("")
  {}

  lemma NothingListed(weights: map<string, nat>)
    ensures Sum(weights, []) == 0 && Unique([]) && Range([]) == {}
  {}

  /** What the text of an object's members adds up to. */
  ghost function MembersSize(r: Rules, mem: Memory, m: map<string, GoValue>, room: int): nat {
    |Members(MemberTexts(r, mem, m, room), Listing(m.Keys))|
  }

  lemma QuotedKeyIsLonger(k: string)
    ensures |Quoted(k)| >= |k| + 2
  {
    QuotedIsLonger(k);
  }

  /** One more member: its weight, and that a partial sum never exceeds the whole. */
  lemma MemberStep(r: Rules, mem: Memory, m: map<string, GoValue>, room: int, order: seq<string>, k: string)
    requires k in m && Unique(order) && Range(order) <= m.Keys && k !in Range(order)
    ensures var weights := Lengths(MemberTexts(r, mem, m, room));
      && Unique(order + [k]) && Range(order + [k]) == Range(order) + {k}
      && (AllMembersOk(r, mem, m, room) ==>
            && r.utf8(k) && ValueText(r, mem, m[k], room).Some?
            && MembersSize(r, mem, m, room)
               >= Sum(weights, order) + Commas(|order| + 1) + |Quoted(k)| + 1 + |ValueText(r, mem, m[k], room).value|)
      && (r.utf8(k) && ValueText(r, mem, m[k], room).Some? ==>
            Sum(weights, order + [k])
            == Sum(weights, order) + |Quoted(k)| + 1 + |ValueText(r, mem, m[k], room).value|)
  {
    hide ValueText, Quoted, Listing, Le, Members;
    var texts := MemberTexts(r, mem, m, room);
    var weights := Lengths(texts);
    RangeGrows(order, k);
    assert (order + [k])[..|order|] == order;
    if AllMembersOk(r, mem, m, room) {
      var all := Listing(m.Keys);
      SortedIsDistinct(all);
      PartialSum(weights, order + [k], all);
      MembersLength(texts, all);
    }
  }

  lemma RangeGrows(order: seq<string>, k: string)
    requires Unique(order) && k !in Range(order)
    ensures Unique(order + [k]) && Range(order + [k]) == Range(order) + {k}
  {
    assert forall i | 0 <= i < |order| :: order[i] in Range(order);
    forall x ensures x in Range(order + [k]) <==> x in Range(order) + {k} {
      if x in Range(order) {
        var i :| 0 <= i < |order| && order[i] == x;
        assert (order + [k])[i] == x;
      }
      assert (order + [k])[|order|] == k;
    }
  }

  lemma SortedIsDistinct(ks: seq<string>)
    requires Sorted(ks)
    ensures Unique(ks)
  {}

  /** Fewer keys weigh no more, and need no more commas. */
  lemma {:induction false} PartialSum(weights: map<string, nat>, a: seq<string>, b: seq<string>)
    requires Unique(a) && Unique(b) && Range(a) <= Range(b)
    ensures Sum(weights, a) <= Sum(weights, b) && |a| <= |b|
    decreases |a|
  {
    if a != [] {
      assert a[0] in Range(a);
      var j :| 0 <= j < |b| && b[j] == a[0];
      hide Sum, Range, Unique, Removed;
      RemovedKey(a, 0);
      RemovedKey(b, j);
      RemovedSum(weights, a, 0);
      RemovedSum(weights, b, j);
      PartialSum(weights, Removed(a, 0), Removed(b, j));
    }
  }

  lemma MembersDone(r: Rules, mem: Memory, m: map<string, GoValue>, room: int, order: seq<string>)
    requires Unique(order) && Range(order) == m.Keys
    requires forall k | k in m :: r.utf8(k) && ValueText(r, mem, m[k], room).Some?
    ensures AllMembersOk(r, mem, m, room)
    ensures MembersSize(r, mem, m, room)
         == Sum(Lengths(MemberTexts(r, mem, m, room)), order) + Commas(|order|)
  {
    hide ValueText, MemberTexts;
    var texts := MemberTexts(r, mem, m, room);
    SortedIsDistinct(Listing(m.Keys));
    SumIgnoresOrder(Lengths(texts), order, Listing(m.Keys));
    MembersLength(texts, Listing(m.Keys));
  }

  // ---------- entries and observations ----------

  datatype MetadataError = MetadataError(code: string, message: string)

  /** An observation time and its RFC 3339 text with nanoseconds. */
  datatype Time = Time(zero: bool, valid: bool, utc: bool, text: string)

  datatype Entry = Entry(state: string, value: GoValue, observedAt: Option<Time>, error: Option<MetadataError>)

  datatype Observation = Observation(state: string, value: GoValue, observedAt: Time, error: Option<MetadataError>)

  predicate ErrorOk(r: Rules, e: MetadataError) {
    && |e.code| <= MAX_ERROR_CODE_BYTES && |e.message| <= MAX_ERROR_MESSAGE_BYTES
    && r.text(e.code, true) && r.text(e.message, true)
  }

  function ErrorText(e: MetadataError): string {
    "{\"code\":" + Quoted(e.code) + ",\"message\":" + Quoted(e.message) + "}"
  }

  function OptionalError(e: Option<MetadataError>): string {
    if e.None? then "" else ",\"error\":" + ErrorText(e.value)
  }

  predicate TimeOk(t: Time) {
    !t.zero && t.valid && t.utc
  }

  function TimeText(t: Time): string {
    "\"" + t.text + "\""
  }

  /** Current and stale facts have a value and a time; unavailable ones have an error and neither. */
  ghost predicate EntryOk(r: Rules, mem: Memory, e: Entry) {
    && (e.state == "current" || e.state == "stale" ==>
          && e.observedAt.Some? && TimeOk(e.observedAt.value) && ValueText(r, mem, e.value, MAX_DEPTH).Some?)
    && (e.state == "current" ==> e.error.None?)
    && (e.state == "unavailable" ==> e.value == Invalid && e.observedAt.None? && e.error.Some?)
    && (e.state == "current" || e.state == "stale" || e.state == "unavailable")
    && (e.error.Some? ==> ErrorOk(r, e.error.value))
  }

  /** The union's JSON object: an unavailable entry has no value and no time. */
  ghost function UnionText(r: Rules, mem: Memory, state: string, v: GoValue, t: Option<Time>, e: Option<MetadataError>): string {
    if state == "unavailable" || t.None? || ValueText(r, mem, v, MAX_DEPTH).None? then
      "{\"state\":" + Quoted(state) + OptionalError(e) + "}"
    else
      "{\"state\":" + Quoted(state) + ",\"value\":" + ValueText(r, mem, v, MAX_DEPTH).value
      + ",\"observedAt\":" + TimeText(t.value) + OptionalError(e) + "}"
  }

  ghost function EntryText(r: Rules, mem: Memory, e: Entry): string {
    UnionText(r, mem, e.state, e.value, e.observedAt, e.error)
  }

  ghost predicate EntryAdmitted(r: Rules, mem: Memory, e: Entry) {
    EntryOk(r, mem, e) && |EntryText(r, mem, e)| <= MAX_ENTRY_BYTES
  }

  method ErrorSize(r: Rules, e: MetadataError) returns (size: Option<nat>)
    ensures size == if ErrorOk(r, e) then Some(|ErrorText(e)|) else None
  {
    if |e.code| > MAX_ERROR_CODE_BYTES || |e.message| > MAX_ERROR_MESSAGE_BYTES {
      return None;
    }
    if !r.text(e.code, true) || !r.text(e.message, true) {
      return None;
    }
    var code := QuotedJSONSize(e.code);
    var message := QuotedJSONSize(e.message);
    return Some(|"{\"code\":,\"message\":}"| + code + message);
  }

  method TimeSize(t: Time) returns (size: Option<nat>)
    ensures size == if TimeOk(t) then Some(|TimeText(t)|) else None
  {
    if t.zero || !t.valid || !t.utc {
      return None;
    }
    return Some(|t.text| + 2);
  }

  /** The size of an entry's text, for exactly the entries that are admitted. */
  method EntrySize(r: Rules, mem: Memory, e: Entry) returns (size: Option<nat>)
    requires !r.number("")
    ensures size.Some? <==> EntryAdmitted(r, mem, e)
    ensures size.Some? ==> size.value == |EntryText(r, mem, e)|
  {
    hide ValueText, Quoted;
    var quotedState := QuotedJSONSize(e.state);
    var n := |"{\"state\":}"| + quotedState;
    if e.state == "current" || e.state == "stale" {
      if e.observedAt.None? || (e.state == "current" && e.error.Some?) {
        return None;
      }
      var time := TimeSize(e.observedAt.value);
      if time.None? {
        return None;
      }
      n := n + |",\"observedAt\":"| + time.value + |",\"value\":"|;
      var budget := new MetadataValueBudget();
      var ok := budget.Visit(r, mem, e.value, 0);
      if !ok {
        return None;
      }
      n := n + budget.bytes;
    } else if e.state == "unavailable" {
      if e.value != Invalid || e.observedAt.Some? {
        return None;
      }
      if e.error.None? {
        return None;
      }
    } else {
      return None;
    }
    if e.error.Some? {
      var error := ErrorSize(r, e.error.value);
      if error.None? {
        return None;
      }
      n := n + |",\"error\":"| + error.value;
    }
    if n > MAX_ENTRY_BYTES {
      return None;
    }
    return Some(n);
  }

  ghost predicate ObservationAdmitted(r: Rules, mem: Memory, o: Observation) {
    && (o.state == "success" ==>
          && o.error.None? && TimeOk(o.observedAt) && ValueText(r, mem, o.value, MAX_DEPTH).Some?)
    && (o.state == "unavailable" ==>
          o.value == Invalid && o.observedAt.zero && o.error.Some? && ErrorOk(r, o.error.value))
    && (o.state == "success" || o.state == "unavailable")
    && |ObservationText(r, mem, o)| <= MAX_ENTRY_BYTES
  }

  ghost function ObservationText(r: Rules, mem: Memory, o: Observation): string {
    UnionText(r, mem, o.state, o.value, Some(o.observedAt), o.error)
  }

  /** Measured as a current entry: the two states are spelled with equally many letters. */
  method ObservationSize(r: Rules, mem: Memory, o: Observation) returns (size: Option<nat>)
    requires !r.number("")
    ensures size.Some? <==> ObservationAdmitted(r, mem, o)
    ensures size.Some? ==> size.value == |ObservationText(r, mem, o)|
  {
    hide ValueText;
    var e := Entry(o.state, o.value, None, o.error);
    if o.state == "success" {
      e := e.(state := "current", observedAt := Some(o.observedAt));
      StatesAreAsLong();
    } else if o.state == "unavailable" {
      if !o.observedAt.zero {
        return None;
      }
    } else {
      return None;
    }
    hide Quoted;
    size := EntrySize(r, mem, e);
  }

  lemma StatesAreAsLong()
    ensures |Quoted("success")| == |Quoted("current")|
  {
    hide Escaped;
    PlainText("success");
    PlainText("current");
  }

  predicate Plain(c: char) {
    !HasShortEscape(c) && !NeedsUnicodeEscape(c) && c != '\U{00e2}'
  }

  lemma {:induction false} PlainText(s: string)
    requires forall i | 0 <= i < |s| :: Plain(s[i])
    ensures Escaped(s) == s
  {
    if s != "" {
      assert Plain(s[0]);
      PlainText(s[1..]);
    }
  }

  // ---------- patches ----------

  /** `None` is a nil map or a nil slice. */
  datatype Update = Update(set_: Option<map<string, Observation>>, remove: Option<seq<string>>)

  predicate KeyOk(r: Rules, k: string) {
    |k| <= MAX_KEY_BYTES && r.text(k, true)
  }

  function SetOf(u: Update): map<string, Observation> {
    if u.set_.None? then map[] else u.set_.value
  }

  function RemoveOf(u: Update): seq<string> {
    if u.remove.None? then [] else u.remove.value
  }

  ghost function ObservationMembers(r: Rules, mem: Memory, m: map<string, Observation>): map<string, string> {
    map k | k in m :: Quoted(k) + ":" + ObservationText(r, mem, m[k])
  }

  function QuotedList(ks: seq<string>): string {
    if ks == [] then ""
    else QuotedList(ks[..|ks| - 1]) + (if |ks| > 1 then "," else "") + Quoted(ks[|ks| - 1])
  }

  /** The JSON text of a patch; nil containers are written as null. */
  ghost function UpdateText(r: Rules, mem: Memory, u: Update): string {
    "{\"set\":"
    + (if u.set_.None? then "null"
       else "{" + Members(ObservationMembers(r, mem, u.set_.value), Listing(u.set_.value.Keys)) + "}")
    + ",\"remove\":"
    + (if u.remove.None? then "null" else "[" + QuotedList(u.remove.value) + "]")
    + "}"
  }

  ghost function Filled(u: Update): Update {
    Update(Some(SetOf(u)), Some(RemoveOf(u)))
  }

  ghost predicate SetOk(r: Rules, mem: Memory, m: map<string, Observation>) {
    forall k | k in m :: KeyOk(r, k) && ObservationAdmitted(r, mem, m[k])
  }

  ghost predicate RemoveOk(r: Rules, m: map<string, Observation>, ks: seq<string>) {
    && (forall i | 0 <= i < |ks| :: KeyOk(r, ks[i]) && ks[i] !in m)
    && Unique(ks)
  }

  ghost predicate UpdateAdmitted(r: Rules, mem: Memory, u: Update) {
    && |SetOf(u)| + |RemoveOf(u)| <= MAX_ENTRIES
    && SetOk(r, mem, SetOf(u)) && RemoveOk(r, SetOf(u), RemoveOf(u))
    && |UpdateText(r, mem, Filled(u))| <= MAX_SNAPSHOT_BYTES
  }

  /**
    Admits exactly the bounded patches, measuring nil containers as empty ones; so the measured size is
    the length of the text exactly when neither container is nil.
   */
  method ValidateUpdate(r: Rules, mem: Memory, u: Update) returns (ok: bool, size: nat)
    requires !r.number("")
    ensures ok <==> UpdateAdmitted(r, mem, u)
    ensures ok ==> size == |UpdateText(r, mem, Filled(u))|
    ensures ok ==> (size == |UpdateText(r, mem, u)| <==> u.set_.Some? && u.remove.Some?)
  {
    hide ObservationAdmitted, ObservationText, KeyOk, Unique, Range, Sum, Lengths, Quoted, Listing, Members,
         ObservationMembers, QuotedList;
    size := 0;
    NilTexts(r, mem, u);
    var m: map<string, Observation> := if u.set_.Some? then u.set_.value else map[];
    var remove: seq<string> := if u.remove.Some? then u.remove.value else [];
    if |m| + |remove| > MAX_ENTRIES {
      return false, size;
    }
    var sets;
    ok, sets := SetSize(r, mem, m);
    if !ok {
      return;
    }
    var removes;
    ok, removes := RemoveSize(r, m, remove);
    if !ok {
      return;
    }
    size := |"{\"set\":{},\"remove\":[]}"| + sets + removes;
    ok := size <= MAX_SNAPSHOT_BYTES;
  }

  lemma NilTexts(r: Rules, mem: Memory, u: Update)
    ensures |UpdateText(r, mem, Filled(u))|
         == |"{\"set\":{},\"remove\":[]}"|
            + |Members(ObservationMembers(r, mem, SetOf(u)), Listing(SetOf(u).Keys))| + |QuotedList(RemoveOf(u))|
    ensures |UpdateText(r, mem, u)|
         == |UpdateText(r, mem, Filled(u))| + (if u.set_.None? then 2 else 0) + (if u.remove.None? then 2 else 0)
  {
    hide Members, QuotedList, ObservationMembers;
    EmptyMembers(ObservationMembers(r, mem, SetOf(u)));
    if u.set_.None? {
      assert SetOf(u).Keys == {};
    }
  }

  lemma EmptyMembers(texts: map<string, string>)
    ensures |Members(texts, Listing({}))| == 0 && |QuotedList([])| == 0
  {
    var ks: seq<string> := Listing({});
    FirstIsListed(ks);
  }

  lemma FirstIsListed(ks: seq<string>)
    ensures ks != [] ==> ks[0] in Range(ks)
  {}

  /** The set's members in any order; their commas are counted afterwards. */
  method SetSize(r: Rules, mem: Memory, m: map<string, Observation>) returns (ok: bool, size: nat)
    requires !r.number("")
    ensures ok <==> SetOk(r, mem, m)
    ensures ok ==> size == |Members(ObservationMembers(r, mem, m), Listing(m.Keys))|
  {
    hide ObservationAdmitted, ObservationText, KeyOk, Unique, Range, Sum, Lengths, Quoted, Members, ObservationMembers;
    ghost var weights := Lengths(ObservationMembers(r, mem, m));
    var todo := m.Keys;
    ghost var order: seq<string> := [];
    size := 0;
    NothingListed(weights);
    while todo != {}
      invariant todo <= m.Keys && Unique(order) && Range(order) == m.Keys - todo
      invariant forall k | k in m && k !in todo :: KeyOk(r, k) && ObservationAdmitted(r, mem, m[k])
      invariant size == Sum(weights, order)
      decreases todo
    {
      var k :| k in todo;
      RangeGrows(order, k);
      ObservationWeight(r, mem, m, order, k);
      if !CheckKey(r, k) {
        return false, size;
      }
      var n := ObservationSize(r, mem, m[k]);
      if n.None? {
        return false, size;
      }
      var q := QuotedJSONSize(k);
      size := size + q + 1 + n.value;
      order := order + [k];
      todo := todo - {k};
    }
    ok := true;
    ListedInFull(ObservationMembers(r, mem, m), order, m.Keys);
    UniqueCount(order, m.Keys);
    if |m| > 0 {
      size := size + |m| - 1;
    }
  }

  function CheckKey(r: Rules, k: string): (ok: bool)
    ensures ok == KeyOk(r, k)
  {
    !(|k| > MAX_KEY_BYTES) && r.text(k, true)
  }

  lemma ObservationWeight(r: Rules, mem: Memory, m: map<string, Observation>, order: seq<string>, k: string)
    requires k in m
    ensures var weights := Lengths(ObservationMembers(r, mem, m));
      Sum(weights, order + [k]) == Sum(weights, order) + |Quoted(k)| + 1 + |ObservationText(r, mem, m[k])|
  {
    hide Quoted, ObservationText;
    assert (order + [k])[..|order|] == order;
  }

  /** A complete listing in any order measures the members' text, commas apart. */
  lemma ListedInFull(texts: map<string, string>, order: seq<string>, keys: set<string>)
    requires Unique(order) && Range(order) == keys
    ensures |Members(texts, Listing(keys))| == Sum(Lengths(texts), order) + Commas(|order|)
  {
    hide Sum, Lengths, Members, Sorted, Unique;
    SortedIsDistinct(Listing(keys));
    SumIgnoresOrder(Lengths(texts), order, Listing(keys));
    MembersLength(texts, Listing(keys));
  }

  lemma {:induction false} UniqueCount(ks: seq<string>, keys: set<string>)
    requires Unique(ks) && Range(ks) == keys
    ensures |ks| == |keys|
    decreases |ks|
  {
    if ks != [] {
      assert ks[0] in Range(ks);
      RemovedKey(ks, 0);
      UniqueCount(Removed(ks, 0), keys - {ks[0]});
    }
  }

  method RemoveSize(r: Rules, m: map<string, Observation>, ks: seq<string>) returns (ok: bool, size: nat)
    ensures ok <==> RemoveOk(r, m, ks)
    ensures ok ==> size == |QuotedList(ks)|
  {
    hide Quoted;
    size := 0;
    var seen: set<string> := {};
    for i := 0 to |ks|
      invariant seen == Range(ks[..i]) && Unique(ks[..i])
      invariant forall j | 0 <= j < i :: KeyOk(r, ks[j]) && ks[j] !in m
      invariant size + Commas(i) == |QuotedList(ks[..i])|
    {
      var k := ks[i];
      assert ks[..i + 1][..i] == ks[..i] && ks[..i + 1] == ks[..i] + [k];
      if !CheckKey(r, k) || k in m {
        return false, size;
      }
      if k in seen {
        return false, size;
      }
      RangeGrows(ks[..i], k);
      seen := seen + {k};
      var q := QuotedJSONSize(k);
      size := size + q;
    }
    assert ks[..|ks|] == ks;
    ok := true;
    if |ks| > 0 {
      size := size + |ks| - 1;
    }
  }

  // ---------- snapshots ----------

  datatype Snapshot = Snapshot(
    connectionID: string, generation: string, revision: string, active: bool, refreshing: bool,
    lastRefreshError: Option<MetadataError>, entries: Option<map<string, Entry>>)

  /** The decimal spelling of a positive 64-bit number. */
  ghost predicate RevisionOk(s: string) {
    exists n :: 0 < n <= MAX_UINT64 && s == FormatInt(n)
  }

  ghost predicate IdentityOk(r: Rules, s: Snapshot) {
    && |s.connectionID| <= 4096 && |s.generation| <= 256
    && r.text(s.connectionID, true) && r.text(s.generation, s.active)
    && RevisionOk(s.revision)
    && (s.refreshing ==> s.active)
    && (s.lastRefreshError.Some? ==> ErrorOk(r, s.lastRefreshError.value))
  }

  /** An inactive connection has no current facts, and one without a generation has no facts at all. */
  ghost predicate FactOk(r: Rules, mem: Memory, s: Snapshot, k: string, e: Entry) {
    && KeyOk(r, k) && (e.state == "current" ==> s.active) && s.generation != ""
    && EntryAdmitted(r, mem, e)
  }

  ghost predicate FactsOk(r: Rules, mem: Memory, s: Snapshot, m: map<string, Entry>) {
    forall k | k in m :: FactOk(r, mem, s, k, m[k])
  }

  ghost function EntryMembers(r: Rules, mem: Memory, m: map<string, Entry>): map<string, string> {
    map k | k in m :: Quoted(k) + ":" + EntryText(r, mem, m[k])
  }

  function IdentityText(s: Snapshot): string {
    "{\"connectionID\":" + Quoted(s.connectionID) + ",\"generation\":" + Quoted(s.generation)
    + ",\"revision\":" + Quoted(s.revision) + ",\"active\":" + BoolText(s.active)
    + ",\"refreshing\":" + BoolText(s.refreshing)
    + if s.lastRefreshError.None? then "" else ",\"lastRefreshError\":" + ErrorText(s.lastRefreshError.value)
  }

  ghost function SnapshotText(r: Rules, mem: Memory, s: Snapshot, m: map<string, Entry>): string {
    IdentityText(s) + ",\"entries\":{" + Members(EntryMembers(r, mem, m), Listing(m.Keys)) + "}}"
  }

  ghost predicate SnapshotAdmitted(r: Rules, mem: Memory, s: Snapshot, limit: nat) {
    && IdentityOk(r, s)
    && s.entries.Some? && |s.entries.value| <= MAX_ENTRIES
    && FactsOk(r, mem, s, s.entries.value)
    && |SnapshotText(r, mem, s, s.entries.value)| <= limit
  }

  lemma RevisionIsSpelled(s: string)
    ensures RevisionOk(s) <==> s != "" && s[0] != '0' && ParseUint(s).Some?
    ensures ParseUint(s).Some? ==> AllDigits(s)
  {
    PositiveIsFormatted(s);
  }

  /** The size of everything before the entries. */
  method IdentitySize(r: Rules, s: Snapshot) returns (size: Option<nat>)
    ensures size == if IdentityOk(r, s) then Some(|IdentityText(s)|) else None
  {
    hide Quoted, ErrorText, ErrorOk, RevisionOk, ParseUint;
    if |s.connectionID| > 4096 || |s.generation| > 256 {
      return None;
    }
    if !r.text(s.connectionID, true) || !r.text(s.generation, s.active) {
      return None;
    }
    RevisionIsSpelled(s.revision);
    if s.revision == "" || s.revision[0] == '0' {
      return None;
    }
    if ParseUint(s.revision).None? {
      return None;
    }
    for i := 0 to |s.revision| {
      if s.revision[i] < '0' || s.revision[i] > '9' {
        return None;
      }
    }
    if s.refreshing && !s.active {
      return None;
    }
    var id := QuotedJSONSize(s.connectionID);
    var generation := QuotedJSONSize(s.generation);
    var revision := QuotedJSONSize(s.revision);
    var n := |"{\"connectionID\":,\"generation\":,\"revision\":,\"active\":,\"refreshing\":"|
             + id + generation + revision + (if s.active then 4 else 5) + (if s.refreshing then 4 else 5);
    if s.lastRefreshError.Some? {
      var error := ErrorSize(r, s.lastRefreshError.value);
      if error.None? {
        return None;
      }
      n := n + |",\"lastRefreshError\":"| + error.value;
    }
    return Some(n);
  }

  /** Admits exactly the snapshots whose text fits the limit, giving up as soon as a partial sum exceeds it. */
  method ValidateSnapshot(r: Rules, mem: Memory, s: Snapshot, limit: nat) returns (size: Option<nat>)
    requires !r.number("")
    ensures size.Some? <==> SnapshotAdmitted(r, mem, s, limit)
    ensures size.Some? ==> size.value == |SnapshotText(r, mem, s, s.entries.value)|
  {
    hide IdentityOk, IdentityText, FactOk, Unique, Range, Sum, Lengths, Quoted, Listing, Members, EntryMembers,
         EntryAdmitted, EntryText;
    var identity := IdentitySize(r, s);
    if identity.None? {
      return None;
    }
    if s.entries.None? || |s.entries.value| > MAX_ENTRIES {
      return None;
    }
    var m := s.entries.value;
    var base := identity.value + |",\"entries\":{}}"|;
    var n := base;
    ghost var weights := Lengths(EntryMembers(r, mem, m));
    var todo := m.Keys;
    ghost var order: seq<string> := [];
    NothingListed(weights);
    while todo != {}
      invariant todo <= m.Keys && Unique(order) && Range(order) == m.Keys - todo
      invariant forall k | k in m && k !in todo :: FactOk(r, mem, s, k, m[k])
      invariant n == base + Sum(weights, order)
      decreases todo
    {
      var k :| k in todo;
      RangeGrows(order, k);
      EntryWeight(r, mem, m, order, k);
      PartialMembers(EntryMembers(r, mem, m), order + [k], m.Keys);
      FactParts(r, mem, s, k, m[k]);
      if !CheckKey(r, k) {
        return None;
      }
      if m[k].state == "current" && !s.active {
        return None;
      }
      if s.generation == "" {
        return None;
      }
      var entry := EntrySize(r, mem, m[k]);
      if entry.None? {
        return None;
      }
      var q := QuotedJSONSize(k);
      n := n + q + 1 + entry.value;
      if n > limit {
        return None;
      }
      order := order + [k];
      todo := todo - {k};
    }
    ListedInFull(EntryMembers(r, mem, m), order, m.Keys);
    UniqueCount(order, m.Keys);
    if |m| > 0 {
      n := n + |m| - 1;
    }
    if n > limit {
      return None;
    }
    return Some(n);
  }

  lemma FactParts(r: Rules, mem: Memory, s: Snapshot, k: string, e: Entry)
    ensures FactOk(r, mem, s, k, e) <==>
      KeyOk(r, k) && (e.state == "current" ==> s.active) && s.generation != "" && EntryAdmitted(r, mem, e)
  {
    hide KeyOk, EntryAdmitted;
  }

  lemma EntryWeight(r: Rules, mem: Memory, m: map<string, Entry>, order: seq<string>, k: string)
    requires k in m
    ensures var weights := Lengths(EntryMembers(r, mem, m));
      Sum(weights, order + [k]) == Sum(weights, order) + |Quoted(k)| + 1 + |EntryText(r, mem, m[k])|
  {
    hide Quoted, EntryText;
    assert (order + [k])[..|order|] == order;
  }

  /** A partial sum never exceeds the length of the whole. */
  lemma PartialMembers(texts: map<string, string>, order: seq<string>, keys: set<string>)
    requires Unique(order) && Range(order) <= keys
    ensures Sum(Lengths(texts), order) <= |Members(texts, Listing(keys))|
  {
    hide Sum, Lengths, Members, Sorted, Unique;
    SortedIsDistinct(Listing(keys));
    PartialSum(Lengths(texts), order, Listing(keys));
    MembersLength(texts, Listing(keys));
  }
}
