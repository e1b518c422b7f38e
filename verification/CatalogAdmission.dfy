/**
  Catalog observations carried in a context, and the length-prefixed frame that takes them across an
  RPC boundary.  Strings are byte sequences; whether bytes are valid UTF-8 is a parameter.
 */
module CatalogAdmission {

  import opened Wrappers

  const MAX_UINT16: int := 65535
  const FRAME_VERSION: byte := 1
  const FRAME_HEADER_BYTES: int := 3

  datatype Limits = Limits(revisionBytes: int, metadataBytes: int, observations: int)

  datatype Code = ResetRequired | ResourceLimit
  datatype Violation =
    | TooManyObservations | DuplicateRevision | FieldExceedsFrame | InvalidRoute | RevisionRequired
    | MetadataExceedsBound | MalformedFrame
  {
    function Code(): Code {
      if TooManyObservations? || FieldExceedsFrame? || MetadataExceedsBound? then ResourceLimit else ResetRequired
    }
  }

  datatype Observation = Observation(provider: bytes, connection: bytes, revision: bytes)

  predicate SamePair(a: Observation, b: Observation) {
    a.provider == b.provider && a.connection == b.connection
  }

  /** What calls for a new observation, and only that, has the reset code; the rest are exceeded limits. */
  lemma ViolationCodes(v: Violation)
    ensures v.Code() == ResetRequired
       <==> v.DuplicateRevision? || v.InvalidRoute? || v.RevisionRequired? || v.MalformedFrame?
  {}

  // ---------- contexts ----------

  /** A context chain; `WithRoutes` holds a borrowed slice, null when the observations are masked. */
  datatype Context = Background | WithOther(parent: Context) | WithRoutes(parent: Context, slice: array?<Observation>)

  function Entries(ctx: Context): array?<Observation> {
    match ctx
    case Background => null
    case WithOther(parent) => Entries(parent)
    case WithRoutes(_, slice) => slice
  }

  /** The observations read through the slice. */
  function View(ctx: Context): seq<Observation>
    reads Entries(ctx)
  {
    if Entries(ctx) == null then [] else Entries(ctx)[..]
  }

  /** Modifies nothing that existed, so every earlier and sibling context keeps its observations. */
  method Append(ctx: Context, entry: Observation) returns (out: Context)
    ensures View(out) == old(View(ctx)) + [entry] && View(ctx) == old(View(ctx))
    ensures Entries(out) != null && fresh(Entries(out))
  {
    assert allocated(Entries(ctx));
    var previous := Entries(ctx);
    var n := if previous == null then 0 else previous.Length;
    var entries := new Observation[n + 1](_ => entry);
    for i := 0 to n
      invariant previous != null ==> previous[..] == old(View(ctx))
      invariant previous != null ==> entries[..i] == previous[..i]
    {
      entries[i] := previous[i];
    }
    entries[n] := entry;
    out := WithRoutes(ctx, entries);
  }

  method Clear(ctx: Context) returns (out: Context)
    ensures View(out) == []
  {
    out := WithRoutes(ctx, null);
  }

  function Occurrences(es: seq<Observation>, provider: bytes, connection: bytes): nat {
    if es == [] then 0
    else
      var e := es[|es| - 1];
      Occurrences(es[..|es| - 1], provider, connection)
      + if e.provider == provider && e.connection == connection then 1 else 0
  }

  /** Absent, the sole revision, or present-but-empty, by how often the pair occurs. */
  ghost predicate Answers(
    es: seq<Observation>, provider: bytes, connection: bytes, revision: bytes, found: bool)
  {
    var n := Occurrences(es, provider, connection);
    && (found <==> n > 0)
    && (n == 1 ==> Observation(provider, connection, revision) in es)
    && (n != 1 ==> revision == [])
  }

  method Qualified(ctx: Context, provider: bytes, connection: bytes) returns (revision: bytes, found: bool)
    ensures Answers(View(ctx), provider, connection, revision, found)
  {
    revision, found := [], false;
    assert allocated(Entries(ctx));
    var es := View(ctx);
    for i := 0 to |es|
      invariant found <==> Occurrences(es[..i], provider, connection) == 1
      invariant Occurrences(es[..i], provider, connection) <= 1
      invariant found ==> Observation(provider, connection, revision) in es[..i]
      invariant !found ==> revision == []
    {
      var entry := es[i];
      assert es[..i + 1][..i] == es[..i];
      if entry.provider == provider && entry.connection == connection {
        if found {
          OccurrencesGrow(es, i + 1, provider, connection);
          return [], true;
        }
        revision, found := entry.revision, true;
      }
    }
    assert es[..|es|] == es;
  }

  lemma {:induction false} OccurrencesGrow(es: seq<Observation>, n: nat, provider: bytes, connection: bytes)
    requires n <= |es|
    ensures Occurrences(es[..n], provider, connection) <= Occurrences(es, provider, connection)
  {
    if n < |es| {
      OccurrencesGrow(es[..|es| - 1], n, provider, connection);
      assert es[..|es| - 1][..n] == es[..n];
    } else {
      assert es[..n] == es;
    }
  }

  // ---------- admission ----------

  predicate RevisionOk(utf8: bytes -> bool, revision: bytes, maxBytes: int) {
    revision != [] && |revision| <= maxBytes && utf8(revision)
  }

  predicate FieldOk(utf8: bytes -> bool, field: bytes, maxBytes: int) {
    RevisionOk(utf8, field, maxBytes) && |field| <= MAX_UINT16
  }

  predicate ObservationOk(utf8: bytes -> bool, e: Observation, maxBytes: int) {
    FieldOk(utf8, e.provider, maxBytes) && FieldOk(utf8, e.connection, maxBytes) && FieldOk(utf8, e.revision, maxBytes)
  }

  ghost predicate DistinctPairs(es: seq<Observation>) {
    forall i, j | 0 <= i < j < |es| :: !SamePair(es[i], es[j])
  }

  /** The entries may be framed, and the frame may be admitted, under these limits. */
  ghost predicate Admissible(utf8: bytes -> bool, es: seq<Observation>, defaultRevision: bytes, limits: Limits) {
    && 0 < |es| <= limits.observations && |es| <= MAX_UINT16
    && DistinctPairs(es)
    && (forall i | 0 <= i < |es| :: ObservationOk(utf8, es[i], limits.revisionBytes))
    && |Frame(es)| + |defaultRevision| + 256 <= limits.metadataBytes
  }

  /** What is wrong with entry i, given the entries before it; its duplicate comes first, its revision last. */
  ghost predicate Offends(utf8: bytes -> bool, es: seq<Observation>, i: nat, maxBytes: int, v: Violation)
    requires i < |es|
  {
    var e := es[i];
    var duplicate := exists j :: 0 <= j < i && SamePair(es[j], e);
    var wide := |e.provider| > MAX_UINT16 || |e.connection| > MAX_UINT16 || |e.revision| > MAX_UINT16;
    var route := RevisionOk(utf8, e.provider, maxBytes) && RevisionOk(utf8, e.connection, maxBytes);
    match v
    case DuplicateRevision => duplicate
    case FieldExceedsFrame => !duplicate && wide
    case InvalidRoute => !duplicate && !wide && !route
    case RevisionRequired => !duplicate && !wide && route && !RevisionOk(utf8, e.revision, maxBytes)
    case _ => false
  }

  ghost predicate Fits(utf8: bytes -> bool, es: seq<Observation>, maxBytes: int) {
    DistinctPairs(es) && forall i | 0 <= i < |es| :: ObservationOk(utf8, es[i], maxBytes)
  }

  /** The reported violation is the first in admission order. */
  ghost predicate FirstViolation(
    utf8: bytes -> bool, es: seq<Observation>, defaultRevision: bytes, limits: Limits, v: Violation)
  {
    if |es| > limits.observations || |es| > MAX_UINT16 then v == TooManyObservations
    else if Fits(utf8, es, limits.revisionBytes) then v == MetadataExceedsBound
    else exists i :: 0 <= i < |es| && Fits(utf8, es[..i], limits.revisionBytes)
                  && Offends(utf8, es, i, limits.revisionBytes, v)
  }

  lemma OffendingIsFirst(
    utf8: bytes -> bool, es: seq<Observation>, i: nat, defaultRevision: bytes, limits: Limits, v: Violation)
    requires i < |es| <= limits.observations && |es| <= MAX_UINT16
    requires Fits(utf8, es[..i], limits.revisionBytes) && Offends(utf8, es, i, limits.revisionBytes, v)
    ensures FirstViolation(utf8, es, defaultRevision, limits, v)
    ensures !Admissible(utf8, es, defaultRevision, limits)
  {
    assert !Fits(utf8, es, limits.revisionBytes);
  }

  lemma NothingFits(utf8: bytes -> bool, es: seq<Observation>, maxBytes: int)
    ensures Fits(utf8, es[..0], maxBytes) && EncodeFields(Flat(es[..0])) == []
  {}

  lemma FitsGrows(utf8: bytes -> bool, es: seq<Observation>, i: nat, maxBytes: int)
    requires i < |es| && Fits(utf8, es[..i], maxBytes) && ObservationOk(utf8, es[i], maxBytes)
    requires forall j | 0 <= j < i :: !SamePair(es[j], es[i])
    ensures Fits(utf8, es[..i + 1], maxBytes)
  {}

  lemma TooManyIsFirst(utf8: bytes -> bool, es: seq<Observation>, defaultRevision: bytes, limits: Limits)
    requires |es| > limits.observations || |es| > MAX_UINT16
    ensures FirstViolation(utf8, es, defaultRevision, limits, TooManyObservations)
    ensures !Admissible(utf8, es, defaultRevision, limits)
  {}

  lemma FittingDecides(utf8: bytes -> bool, es: seq<Observation>, size: int, defaultRevision: bytes, limits: Limits)
    requires 0 < |es| <= limits.observations && |es| <= MAX_UINT16
    requires Fits(utf8, es[..|es|], limits.revisionBytes) && size == 3 + |EncodeFields(Flat(es[..|es|]))|
    ensures size == |Frame(es)|
    ensures Admissible(utf8, es, defaultRevision, limits) <==> size + |defaultRevision| + 256 <= limits.metadataBytes
    ensures FirstViolation(utf8, es, defaultRevision, limits, MetadataExceedsBound)
  {
    assert es[..|es|] == es;
  }

  function ValidateRevision(utf8: bytes -> bool, revision: bytes, maxBytes: int): Option<Violation> {
    if revision == [] || |revision| > maxBytes || !utf8(revision) then Some(RevisionRequired) else None
  }

  method EncodedSize(utf8: bytes -> bool, ctx: Context, defaultRevision: bytes, limits: Limits)
    returns (size: int, err: Option<Violation>)
    ensures err.None? <==> View(ctx) == [] || Admissible(utf8, View(ctx), defaultRevision, limits)
    ensures err.None? ==> size == if View(ctx) == [] then 0 else |Frame(View(ctx))|
    ensures err.None? && View(ctx) != [] ==> size > 0
    ensures err.Some? ==> size == 0 && FirstViolation(utf8, View(ctx), defaultRevision, limits, err.value)
  {
    hide Admissible, FirstViolation, Fits, Flat, EncodeFields, Frame;
    assert allocated(Entries(ctx));
    var es := View(ctx);
    var n := |es|;
    if n == 0 {
      return 0, None;
    }
    if n > limits.observations || n > MAX_UINT16 {
      TooManyIsFirst(utf8, es, defaultRevision, limits);
      return 0, Some(TooManyObservations);
    }
    size := 3;
    NothingFits(utf8, es, limits.revisionBytes);
    for i := 0 to n
      invariant Fits(utf8, es[..i], limits.revisionBytes)
      invariant size == 3 + |EncodeFields(Flat(es[..i]))|
    {
      var entry := es[i];
      for k := 0 to i
        invariant forall j | 0 <= j < k :: !SamePair(es[j], entry)
      {
        if es[k].provider == entry.provider && es[k].connection == entry.connection {
          assert SamePair(es[k], es[i]);
          OffendingIsFirst(utf8, es, i, defaultRevision, limits, DuplicateRevision);
          return 0, Some(DuplicateRevision);
        }
      }
      if |entry.provider| > MAX_UINT16 || |entry.connection| > MAX_UINT16 || |entry.revision| > MAX_UINT16 {
        OffendingIsFirst(utf8, es, i, defaultRevision, limits, FieldExceedsFrame);
        return 0, Some(FieldExceedsFrame);
      }
      if entry.provider == [] || entry.connection == [] || |entry.provider| > limits.revisionBytes
         || |entry.connection| > limits.revisionBytes || !utf8(entry.provider) || !utf8(entry.connection) {
        OffendingIsFirst(utf8, es, i, defaultRevision, limits, InvalidRoute);
        return 0, Some(InvalidRoute);
      }
      var revisionErr := ValidateRevision(utf8, entry.revision, limits.revisionBytes);
      if revisionErr.Some? {
        OffendingIsFirst(utf8, es, i, defaultRevision, limits, RevisionRequired);
        return 0, revisionErr;
      }
      FitsGrows(utf8, es, i, limits.revisionBytes);
      size := size + 6 + |entry.provider| + |entry.connection| + |entry.revision|;
      FlatGrows(es, i);
    }
    FittingDecides(utf8, es, size, defaultRevision, limits);
    if size + |defaultRevision| + 256 > limits.metadataBytes {
      return 0, Some(MetadataExceedsBound);
    }
    return size, None;
  }

  // ---------- the frame ----------

  function Uint16(n: int): (b: bytes)
    requires 0 <= n <= MAX_UINT16
    ensures |b| == 2 && b[0] as int * 256 + b[1] as int == n
  {
    [(n / 256) as byte, (n % 256) as byte]
  }

  function ReadUint16(b: bytes): (n: int)
    requires |b| == 2
    ensures 0 <= n <= MAX_UINT16
  {
    b[0] as int * 256 + b[1] as int
  }

  lemma Uint16RoundTrip(n: int, b: bytes)
    requires 0 <= n <= MAX_UINT16 && |b| == 2
    ensures ReadUint16(Uint16(n)) == n
    ensures Uint16(ReadUint16(b)) == b
  {}

  /** Fields wider than the frame allows are cut here; admission rejects them beforehand. */
  function EncodeField(f: bytes): bytes {
    Uint16(if |f| <= MAX_UINT16 then |f| else MAX_UINT16) + f
  }

  function EncodeFields(fs: seq<bytes>): bytes {
    if fs == [] then [] else EncodeField(fs[0]) + EncodeFields(fs[1..])
  }

  function Flat(es: seq<Observation>): (fs: seq<bytes>)
    ensures |fs| == 3 * |es|
  {
    if es == [] then []
    else
      var e := es[|es| - 1];
      Flat(es[..|es| - 1]) + [e.provider, e.connection, e.revision]
  }

  /** Version, count, then each entry's provider, connection and revision with 16-bit lengths. */
  ghost function Frame(es: seq<Observation>): bytes {
    [FRAME_VERSION] + Uint16(if |es| <= MAX_UINT16 then |es| else MAX_UINT16) + EncodeFields(Flat(es))
  }

  lemma {:induction false} EncodeAppend(fs: seq<bytes>, gs: seq<bytes>)
    ensures EncodeFields(fs + gs) == EncodeFields(fs) + EncodeFields(gs)
  {
    if fs == [] {
      assert fs + gs == gs;
    } else {
      hide EncodeField;
      var rest := fs[1..] + gs;
      assert (fs + gs)[0] == fs[0] && (fs + gs)[1..] == rest;
      assert EncodeFields(fs + gs) == EncodeField(fs[0]) + EncodeFields(rest);
      EncodeAppend(fs[1..], gs);
      hide EncodeFields;
      Regroup(EncodeField(fs[0]), EncodeFields(fs[1..]), EncodeFields(gs));
    }
  }

  lemma Regroup(a: bytes, b: bytes, c: bytes)
    ensures (a + b) + c == a + (b + c)
  {}

  lemma EncodeOne(f: bytes)
    ensures EncodeFields([f]) == EncodeField(f)
  {
    assert [f][1..] == [];
  }

  lemma FlatGrows(es: seq<Observation>, i: nat)
    requires i < |es|
    ensures Flat(es[..i + 1]) == Flat(es[..i]) + [es[i].provider, es[i].connection, es[i].revision]
    ensures |EncodeFields(Flat(es[..i + 1]))|
         == |EncodeFields(Flat(es[..i]))| + 6 + |es[i].provider| + |es[i].connection| + |es[i].revision|
  {
    var e := es[i];
    assert es[..i + 1][..i] == es[..i];
    EncodeAppend(Flat(es[..i]), [e.provider, e.connection, e.revision]);
    assert [e.provider, e.connection, e.revision] == [e.provider] + ([e.connection] + [e.revision]);
    EncodeAppend([e.provider], [e.connection] + [e.revision]);
    EncodeAppend([e.connection], [e.revision]);
    EncodeOne(e.provider);
    EncodeOne(e.connection);
    EncodeOne(e.revision);
  }

  lemma {:induction false} FlatAt(es: seq<Observation>, i: nat)
    requires i < |es|
    ensures Flat(es)[3 * i..3 * i + 3] == [es[i].provider, es[i].connection, es[i].revision]
    ensures Flat(es)[..3 * i] == Flat(es[..i])
  {
    var front := es[..|es| - 1];
    var last := [es[|es| - 1].provider, es[|es| - 1].connection, es[|es| - 1].revision];
    assert Flat(es) == Flat(front) + last;
    if i < |front| {
      FlatAt(front, i);
      assert front[..i] == es[..i];
      assert Flat(es)[3 * i..3 * i + 3] == Flat(front)[3 * i..3 * i + 3];
      assert Flat(es)[..3 * i] == Flat(front)[..3 * i];
    } else {
      assert Flat(es)[3 * i..3 * i + 3] == last;
    }
  }

  lemma PrefixGrows(fs: seq<bytes>, k: nat)
    requires k < |fs|
    ensures EncodeFields(fs[..k + 1]) == EncodeFields(fs[..k]) + EncodeField(fs[k])
    ensures |EncodeFields(fs[..k + 1])| <= |EncodeFields(fs)|
    ensures EncodeFields(fs) == EncodeFields(fs[..k]) + EncodeFields(fs[k..])
  {
    assert fs[..k + 1] == fs[..k] + [fs[k]];
    EncodeAppend(fs[..k], [fs[k]]);
    EncodeOne(fs[k]);
    assert fs == fs[..k + 1] + fs[k + 1..];
    EncodeAppend(fs[..k + 1], fs[k + 1..]);
    assert fs == fs[..k] + fs[k..];
    EncodeAppend(fs[..k], fs[k..]);
  }

  /** Overwrites the bytes at offset, as `copy` does. */
  method Put(frame: array<byte>, offset: nat, data: bytes)
    requires offset + |data| <= frame.Length
    modifies frame
    ensures frame[..] == old(frame[..offset]) + data + old(frame[offset + |data|..])
  {
    for k := 0 to |data|
      invariant frame[..offset] == old(frame[..offset])
      invariant frame[offset..offset + k] == data[..k]
      invariant frame[offset + |data|..] == old(frame[offset + |data|..])
    {
      frame[offset + k] := data[k];
    }
  }

  method Marshal(utf8: bytes -> bool, ctx: Context, defaultRevision: bytes, limits: Limits)
    returns (frame: array?<byte>, err: Option<Violation>)
    ensures err.None? <==> View(ctx) == [] || Admissible(utf8, View(ctx), defaultRevision, limits)
    ensures err.None? && View(ctx) == [] ==> frame == null
    ensures err.None? && View(ctx) != [] ==> frame != null && fresh(frame) && frame[..] == Frame(View(ctx))
    ensures err.Some? ==> frame == null && FirstViolation(utf8, View(ctx), defaultRevision, limits, err.value)
  {
    hide Admissible, FirstViolation, Frame;
    frame := null;
    assert allocated(Entries(ctx));
    var size;
    size, err := EncodedSize(utf8, ctx, defaultRevision, limits);
    if err.Some? || size == 0 {
      return;
    }
    AdmissibleFields(utf8, View(ctx), defaultRevision, limits);
    var buffer := new byte[size](_ => 0);
    WriteFrame(buffer, View(ctx));
    frame := buffer;
  }

  method WriteFrame(frame: array<byte>, es: seq<Observation>)
    requires |es| <= MAX_UINT16 && forall k | 0 <= k < |Flat(es)| :: |Flat(es)[k]| <= MAX_UINT16
    requires frame.Length == |Frame(es)|
    modifies frame
    ensures frame[..] == Frame(es)
  {
    frame[0] := FRAME_VERSION;
    Put(frame, 1, Uint16(|es|));
    var offset := FRAME_HEADER_BYTES;
    ghost var header := [FRAME_VERSION] + Uint16(|es|);
    assert frame[..3] == header;
    assert Frame(es) == header + EncodeFields(Flat(es));
    assert es[..0] == [] && EncodeFields(Flat(es[..0])) == [];
    hide EncodeFields, EncodeField, Flat, Uint16, Frame;
    for i := 0 to |es|
      invariant offset == 3 + |EncodeFields(Flat(es[..i]))| <= frame.Length
      invariant frame[..offset] == header + EncodeFields(Flat(es[..i]))
    {
      FlatWidens(es, i);
      offset := WriteFields(frame, offset, [es[i].provider, es[i].connection, es[i].revision]);
      Regroup(header, EncodeFields(Flat(es[..i])), EncodeFields([es[i].provider, es[i].connection, es[i].revision]));
    }
    assert es[..|es|] == es;
  }

  lemma FlatWidens(es: seq<Observation>, i: nat)
    requires i < |es|
    ensures var fields := [es[i].provider, es[i].connection, es[i].revision];
      && EncodeFields(Flat(es[..i + 1])) == EncodeFields(Flat(es[..i])) + EncodeFields(fields)
      && |EncodeFields(Flat(es[..i + 1]))| <= |EncodeFields(Flat(es))|
      && forall j | 0 <= j < 3 :: fields[j] in Flat(es)
  {
    hide EncodeFields;
    var fields := [es[i].provider, es[i].connection, es[i].revision];
    FlatGrows(es, i);
    EncodeAppend(Flat(es[..i]), fields);
    FlatAt(es, i);
    forall j | 0 <= j < 3 ensures fields[j] in Flat(es) {
      assert fields[j] == Flat(es)[3 * i..3 * i + 3][j] == Flat(es)[3 * i + j];
    }
    if i + 1 < |es| {
      FlatAt(es, i + 1);
      PrefixGrows(Flat(es), 3 * (i + 1));
    } else {
      assert es[..i + 1] == es;
    }
  }

  /** Writes a length and the field after it. */
  method PutField(frame: array<byte>, offset: nat, field: bytes) returns (next: nat)
    requires |field| <= MAX_UINT16 && offset + |EncodeField(field)| <= frame.Length
    modifies frame
    ensures next == offset + |EncodeField(field)|
    ensures frame[..next] == old(frame[..offset]) + EncodeField(field)
  {
    Put(frame, offset, Uint16(|field|));
    next := offset + 2;
    Put(frame, next, field);
    next := next + |field|;
  }

  /** Writes each length and the field after it, and moves the offset past them. */
  method WriteFields(frame: array<byte>, offset: nat, fields: seq<bytes>) returns (next: nat)
    requires forall j | 0 <= j < |fields| :: |fields[j]| <= MAX_UINT16
    requires offset + |EncodeFields(fields)| <= frame.Length
    modifies frame
    ensures next == offset + |EncodeFields(fields)|
    ensures frame[..next] == old(frame[..offset]) + EncodeFields(fields)
  {
    ghost var before := frame[..offset];
    next := offset;
    assert fields[..0] == [];
    for j := 0 to |fields|
      invariant next == offset + |EncodeFields(fields[..j])| <= frame.Length
      invariant frame[..next] == before + EncodeFields(fields[..j])
    {
      hide EncodeFields;
      PrefixGrows(fields, j);
      next := PutField(frame, next, fields[j]);
      Regroup(before, EncodeFields(fields[..j]), EncodeField(fields[j]));
    }
    assert fields[..|fields|] == fields;
  }

  lemma AdmissibleFields(utf8: bytes -> bool, es: seq<Observation>, defaultRevision: bytes, limits: Limits)
    requires Admissible(utf8, es, defaultRevision, limits)
    ensures 0 < |es| <= MAX_UINT16 && Frame(es) == [FRAME_VERSION] + Uint16(|es|) + EncodeFields(Flat(es))
    ensures forall k | 0 <= k < |Flat(es)| :: |Flat(es)[k]| <= MAX_UINT16
  {
    FlatIsOk(utf8, es, limits.revisionBytes);
  }

  // ---------- reading a frame ----------

  lemma FieldIsPrefixFree(f: bytes, g: bytes, x: bytes, y: bytes)
    requires |f| <= MAX_UINT16 && |g| <= MAX_UINT16
    requires EncodeField(f) + x == EncodeField(g) + y
    ensures f == g && x == y
  {
    var all := EncodeField(f) + x;
    assert all[..2] == Uint16(|f|) && all[..2] == Uint16(|g|);
    Uint16RoundTrip(|f|, Uint16(|f|));
    Uint16RoundTrip(|g|, Uint16(|g|));
    assert f == all[2..2 + |f|] && g == all[2..2 + |g|];
    assert x == all[2 + |f|..] && y == all[2 + |g|..];
  }

  /** The bytes from offset on spell exactly these fields, all of them admissible. */
  ghost predicate Holds(utf8: bytes -> bool, frame: bytes, offset: int, gs: seq<bytes>, maxBytes: int) {
    && 0 <= offset <= |frame| && frame[offset..] == EncodeFields(gs)
    && forall k | 0 <= k < |gs| :: FieldOk(utf8, gs[k], maxBytes)
  }

  /** Decodes one field; if the rest of the frame spells admissible fields gs, it is the first of them. */
  method DecodeField(utf8: bytes -> bool, frame: bytes, offset: int, maxBytes: int, ghost gs: seq<bytes>)
    returns (field: bytes, next: int, ok: bool)
    requires 0 <= offset <= |frame|
    ensures ok ==> FieldOk(utf8, field, maxBytes) && offset + 2 + |field| == next <= |frame|
    ensures ok ==> frame[offset..next] == EncodeField(field)
    ensures Holds(utf8, frame, offset, gs, maxBytes) && gs != [] ==>
      ok && field == gs[0] && Holds(utf8, frame, next, gs[1..], maxBytes)
  {
    if Holds(utf8, frame, offset, gs, maxBytes) && gs != [] {
      ReadsField(frame, offset, gs[0], EncodeFields(gs[1..]));
    }
    hide EncodeFields, EncodeField, ReadUint16;
    if |frame| - offset < 2 {
      return [], offset, false;
    }
    var size := ReadUint16(frame[offset..offset + 2]);
    next := offset + 2;
    if size == 0 || size > maxBytes || size > |frame| - next || !utf8(frame[next..next + size]) {
      return [], next, false;
    }
    field := frame[next..next + size];
    next := next + size;
    ok := true;
    FieldWasRead(frame, offset, field);
  }

  lemma FieldWasRead(frame: bytes, at: nat, field: bytes)
    requires at + 2 + |field| <= |frame| && |field| <= MAX_UINT16
    requires ReadUint16(frame[at..at + 2]) == |field| && frame[at + 2..at + 2 + |field|] == field
    ensures frame[at..at + 2 + |field|] == EncodeField(field)
  {
    Uint16RoundTrip(0, frame[at..at + 2]);
    assert frame[at..at + 2 + |field|] == frame[at..at + 2] + frame[at + 2..at + 2 + |field|];
  }

  /** Decodes three fields; if the rest of the frame spells admissible fields gs, they are its first three. */
  method DecodeObservation(utf8: bytes -> bool, frame: bytes, offset: int, maxBytes: int, ghost gs: seq<bytes>)
    returns (entry: Observation, next: int, err: Option<Violation>)
    requires 0 <= offset <= |frame|
    ensures err.None? ==>
      && offset <= next <= |frame| && ObservationOk(utf8, entry, maxBytes)
      && frame[offset..next] == EncodeFields([entry.provider, entry.connection, entry.revision])
    ensures err.Some? ==> err.value == MalformedFrame
    ensures Holds(utf8, frame, offset, gs, maxBytes) && |gs| >= 3 ==>
      && err.None? && gs[..3] == [entry.provider, entry.connection, entry.revision]
      && Holds(utf8, frame, next, gs[3..], maxBytes)
  {
    ghost var spelled := Holds(utf8, frame, offset, gs, maxBytes) && |gs| >= 3;
    ghost var left := gs;
    var fields: seq<bytes> := [];
    next := offset;
    entry := Observation([], [], []);
    assert frame[offset..next] == EncodeFields(fields);
    hide Holds, EncodeFields, EncodeField, FieldOk;
    for i := 0 to 3
      invariant |fields| == i && offset <= next <= |frame|
      invariant forall k | 0 <= k < i :: FieldOk(utf8, fields[k], maxBytes)
      invariant frame[offset..next] == EncodeFields(fields)
      invariant spelled ==> gs == fields + left && Holds(utf8, frame, next, left, maxBytes)
    {
      var field, after, ok := DecodeField(utf8, frame, next, maxBytes, left);
      if !ok {
        return entry, after, Some(MalformedFrame);
      }
      FieldExtends(frame, offset, next, after, fields, field);
      if spelled {
        left := left[1..];
      }
      fields := fields + [field];
      next := after;
    }
    entry := Observation(fields[0], fields[1], fields[2]);
    assert fields == [entry.provider, entry.connection, entry.revision];
    return entry, next, None;
  }

  lemma ReadsField(frame: bytes, at: nat, f: bytes, rest: bytes)
    requires at <= |frame| && frame[at..] == EncodeField(f) + rest && |f| <= MAX_UINT16
    ensures |frame| - at >= 2 + |f|
    ensures ReadUint16(frame[at..at + 2]) == |f| && frame[at + 2..at + 2 + |f|] == f
    ensures frame[at + 2 + |f|..] == rest
  {
    var tail := frame[at..];
    assert frame[at..at + 2] == tail[..2] == Uint16(|f|);
    assert frame[at + 2..at + 2 + |f|] == tail[2..2 + |f|] == f;
    assert frame[at + 2 + |f|..] == tail[2 + |f|..] == rest;
    Uint16RoundTrip(|f|, Uint16(|f|));
  }

  lemma FieldExtends(frame: bytes, start: nat, at: nat, next: nat, fields: seq<bytes>, field: bytes)
    requires start <= at <= next <= |frame|
    requires frame[start..at] == EncodeFields(fields) && frame[at..next] == EncodeField(field)
    ensures frame[start..next] == EncodeFields(fields + [field])
  {
    EncodeAppend(fields, [field]);
    EncodeOne(field);
    assert frame[start..next] == frame[start..at] + frame[at..next];
  }

  /** A complete frame of admissible entries. */
  ghost predicate Framed(
    utf8: bytes -> bool, frame: bytes, es: seq<Observation>, defaultRevision: bytes, limits: Limits)
  {
    Admissible(utf8, es, defaultRevision, limits) && frame == Frame(es)
  }

  lemma FramedFacts(
    utf8: bytes -> bool, frame: bytes, es: seq<Observation>, defaultRevision: bytes, limits: Limits)
    requires Framed(utf8, frame, es, defaultRevision, limits)
    ensures |frame| >= 3 && frame[0] == FRAME_VERSION && ReadUint16(frame[1..3]) == |es| > 0
    ensures |es| <= limits.observations && |frame| + |defaultRevision| + 256 <= limits.metadataBytes
    ensures DistinctPairs(es) && Holds(utf8, frame, 3, Flat(es), limits.revisionBytes)
  {
    assert frame[1..3] == Uint16(|es|) && frame[3..] == EncodeFields(Flat(es));
    Uint16RoundTrip(|es|, Uint16(|es|));
    FlatIsOk(utf8, es, limits.revisionBytes);
  }

  lemma FlatSplit(es: seq<Observation>, i: nat)
    requires i < |es|
    ensures |Flat(es)[3 * i..]| >= 3
    ensures Flat(es)[3 * i..][..3] == [es[i].provider, es[i].connection, es[i].revision]
    ensures Flat(es)[3 * i..][3..] == Flat(es)[3 * (i + 1)..]
  {
    FlatAt(es, i);
    hide Flat;
    assert Flat(es)[3 * i..][..3] == Flat(es)[3 * i..3 * i + 3];
  }

  lemma SameFields(a: Observation, b: Observation)
    requires [a.provider, a.connection, a.revision] == [b.provider, b.connection, b.revision]
    ensures a == b
  {
    assert [a.provider, a.connection, a.revision][0] == b.provider;
    assert [a.provider, a.connection, a.revision][1] == b.connection;
    assert [a.provider, a.connection, a.revision][2] == b.revision;
  }

  lemma NotRepeated(es: seq<Observation>, entries: seq<Observation>, entry: Observation)
    requires DistinctPairs(es) && |entries| < |es| && es[..|entries|] == entries && es[|entries|] == entry
    ensures forall j | 0 <= j < |entries| :: !SamePair(entries[j], entry)
  {
    forall j | 0 <= j < |entries| ensures !SamePair(entries[j], entry) {
      assert entries[j] == es[j];
    }
  }

  /** The decoding loop; if the frame spells the admissible entries es, these are what it decodes. */
  method DecodeEntries(
    utf8: bytes -> bool, frame: bytes, count: nat, maxBytes: int, ghost es: seq<Observation>)
    returns (entries: seq<Observation>, offset: int, err: Option<Violation>)
    requires |frame| >= 3
    ensures err.None? ==> |entries| == count && 3 <= offset <= |frame| && Fits(utf8, entries, maxBytes)
    ensures err.None? ==> frame[3..offset] == EncodeFields(Flat(entries))
    ensures err.Some? ==> err.value == MalformedFrame
    ensures |es| == count && DistinctPairs(es) && Holds(utf8, frame, 3, Flat(es), maxBytes) ==>
      err.None? && entries == es && offset == |frame|
  {
    ghost var spelled := |es| == count && DistinctPairs(es) && Holds(utf8, frame, 3, Flat(es), maxBytes);
    entries := [];
    offset := FRAME_HEADER_BYTES;
    NothingRead(frame);
    assert Flat(es)[0..] == Flat(es);
    hide Holds, EncodeFields, Flat, Fits, ObservationOk, DistinctPairs;
    for i := 0 to count
      invariant |entries| == i && 3 <= offset <= |frame| && Fits(utf8, entries, maxBytes)
      invariant frame[3..offset] == EncodeFields(Flat(entries))
      invariant spelled ==> es[..i] == entries && Holds(utf8, frame, offset, Flat(es)[3 * i..], maxBytes)
    {
      ghost var gs := if spelled then Flat(es)[3 * i..] else [];
      if spelled {
        FlatSplit(es, i);
      }
      var entry, next, entryErr := DecodeObservation(utf8, frame, offset, maxBytes, gs);
      if spelled {
        SameFields(entry, es[i]);
        NotRepeated(es, entries, entry);
      }
      if entryErr.Some? {
        return entries, offset, entryErr;
      }
      for k := 0 to i
        invariant forall j | 0 <= j < k :: !SamePair(entries[j], entry)
      {
        if entries[k].provider == entry.provider && entries[k].connection == entry.connection {
          return entries, offset, Some(MalformedFrame);
        }
      }
      FitsExtends(utf8, entries, entry, maxBytes);
      EntryRead(frame, offset, next, entries, entry);
      entries := entries + [entry];
      offset := next;
    }
    if spelled {
      NothingLeft(utf8, frame, es, offset, maxBytes);
    }
    return entries, offset, None;
  }

  lemma NothingLeft(utf8: bytes -> bool, frame: bytes, es: seq<Observation>, offset: int, maxBytes: int)
    requires Holds(utf8, frame, offset, Flat(es)[3 * |es|..], maxBytes)
    ensures offset == |frame| && es[..|es|] == es
  {
    hide Flat, FieldOk;
    assert Flat(es)[3 * |es|..] == [];
    assert |frame[offset..]| == 0;
  }

  /** What a rejected frame is rejected for: its size, then its count, and anything else is malformed. */
  function RejectionOf(frame: bytes, defaultRevision: bytes, limits: Limits): Violation {
    if |frame| + |defaultRevision| + 256 > limits.metadataBytes then MetadataExceedsBound
    else if |frame| >= 3 && frame[0] == FRAME_VERSION && ReadUint16(frame[1..3]) > limits.observations then
      TooManyObservations
    else MalformedFrame
  }

  method Unmarshal(utf8: bytes -> bool, ctx: Context, frame: bytes, defaultRevision: bytes, limits: Limits)
    returns (out: Context, err: Option<Violation>)
    ensures err.None? ==> Framed(utf8, frame, View(out), defaultRevision, limits)
    ensures forall es | Framed(utf8, frame, es, defaultRevision, limits) :: err.None? && View(out) == es
    ensures err.Some? ==> out == ctx
    ensures err.Some? ==> err.value == RejectionOf(frame, defaultRevision, limits)
  {
    ghost var want := FramedEntries(utf8, frame, defaultRevision, limits);
    hide Framed, Holds, EncodeFields, Flat, ReadUint16, DistinctPairs, Fits;
    out := ctx;
    if |frame| + |defaultRevision| + 256 > limits.metadataBytes {
      return out, Some(MetadataExceedsBound);
    }
    if |frame| < FRAME_HEADER_BYTES || frame[0] != FRAME_VERSION {
      return out, Some(MalformedFrame);
    }
    var count := ReadUint16(frame[1..FRAME_HEADER_BYTES]);
    if count > limits.observations {
      return out, Some(TooManyObservations);
    }
    if count == 0 {
      return out, Some(MalformedFrame);
    }
    var entries, offset;
    entries, offset, err := DecodeEntries(utf8, frame, count, limits.revisionBytes, want);
    if err.Some? {
      return;
    }
    if offset != |frame| {
      return out, Some(MalformedFrame);
    }
    AllRead(utf8, frame, entries, defaultRevision, limits);
    var slice := new Observation[count](k requires 0 <= k < count => entries[k]);
    out := WithRoutes(ctx, slice);
    assert slice[..] == entries;
    return out, None;
  }

  /** The entries a frame spells, if it spells any: by injectivity there is one candidate. */
  lemma FramedEntries(utf8: bytes -> bool, frame: bytes, defaultRevision: bytes, limits: Limits)
    returns (want: seq<Observation>)
    ensures forall es | Framed(utf8, frame, es, defaultRevision, limits) ::
      && es == want && |frame| >= 3 && frame[0] == FRAME_VERSION && ReadUint16(frame[1..3]) == |es| > 0
      && |es| <= limits.observations && |frame| + |defaultRevision| + 256 <= limits.metadataBytes
      && DistinctPairs(want) && Holds(utf8, frame, 3, Flat(want), limits.revisionBytes)
  {
    want := [];
    if es :| Framed(utf8, frame, es, defaultRevision, limits) {
      want := es;
      FramedFacts(utf8, frame, es, defaultRevision, limits);
      forall ds | Framed(utf8, frame, ds, defaultRevision, limits) ensures ds == want {
        FrameIsInjective(utf8, es, ds, defaultRevision, limits);
      }
    }
  }

  lemma FitsExtends(utf8: bytes -> bool, es: seq<Observation>, e: Observation, maxBytes: int)
    requires Fits(utf8, es, maxBytes) && ObservationOk(utf8, e, maxBytes)
    requires forall j | 0 <= j < |es| :: !SamePair(es[j], e)
    ensures Fits(utf8, es + [e], maxBytes)
  {}

  lemma NothingRead(frame: bytes)
    requires |frame| >= 3
    ensures frame[3..3] == EncodeFields(Flat([]))
  {}

  lemma EntryRead(frame: bytes, offset: int, next: int, entries: seq<Observation>, entry: Observation)
    requires 3 <= offset <= next <= |frame| && frame[3..offset] == EncodeFields(Flat(entries))
    requires frame[offset..next] == EncodeFields([entry.provider, entry.connection, entry.revision])
    ensures frame[3..next] == EncodeFields(Flat(entries + [entry]))
  {
    var es := entries + [entry];
    assert es[..|entries|] == entries;
    EncodeAppend(Flat(entries), [entry.provider, entry.connection, entry.revision]);
    assert frame[3..next] == frame[3..offset] + frame[offset..next];
  }

  lemma AllRead(
    utf8: bytes -> bool, frame: bytes, es: seq<Observation>, defaultRevision: bytes, limits: Limits)
    requires |frame| >= 3 && frame[0] == FRAME_VERSION && ReadUint16(frame[1..3]) == |es|
    requires 0 < |es| <= limits.observations && Fits(utf8, es, limits.revisionBytes)
    requires frame[3..|frame|] == EncodeFields(Flat(es))
    requires |frame| + |defaultRevision| + 256 <= limits.metadataBytes
    ensures Framed(utf8, frame, es, defaultRevision, limits)
  {
    Uint16RoundTrip(0, frame[1..3]);
    assert frame == [frame[0]] + frame[1..3] + frame[3..|frame|];
  }

  lemma FlatIsOk(utf8: bytes -> bool, es: seq<Observation>, maxBytes: int)
    requires forall i | 0 <= i < |es| :: ObservationOk(utf8, es[i], maxBytes)
    ensures forall k | 0 <= k < |Flat(es)| :: FieldOk(utf8, Flat(es)[k], maxBytes)
  {
    forall k | 0 <= k < |Flat(es)| ensures FieldOk(utf8, Flat(es)[k], maxBytes) {
      FlatAt(es, k / 3);
      assert Flat(es)[k] == Flat(es)[3 * (k / 3)..3 * (k / 3) + 3][k % 3];
    }
  }

  // ---------- both directions ----------

  /** Sending admissible observations delivers them, in order, whatever the receiver held before. */
  method Send(utf8: bytes -> bool, ctx: Context, receiver: Context, defaultRevision: bytes, limits: Limits)
    returns (out: Context, err: Option<Violation>)
    requires View(ctx) != []
    ensures err.None? <==> Admissible(utf8, View(ctx), defaultRevision, limits)
    ensures err.None? ==> View(out) == View(ctx)
    ensures err.Some? ==> out == receiver
  {
    hide Admissible, Frame;
    assert allocated(Entries(ctx));
    var frame;
    frame, err := Marshal(utf8, ctx, defaultRevision, limits);
    if err.Some? {
      return receiver, err;
    }
    assert Framed(utf8, frame[..], View(ctx), defaultRevision, limits);
    out, err := Unmarshal(utf8, receiver, frame[..], defaultRevision, limits);
  }

  /** A frame that is accepted is the only frame of its observations: marshalling them again rebuilds it. */
  method Resend(utf8: bytes -> bool, ctx: Context, frame: bytes, defaultRevision: bytes, limits: Limits)
    returns (again: bytes, err: Option<Violation>)
    ensures err.None? ==> again == frame
    ensures err.None? <==> exists es :: Framed(utf8, frame, es, defaultRevision, limits)
  {
    hide Admissible, Frame;
    var out;
    out, err := Unmarshal(utf8, ctx, frame, defaultRevision, limits);
    if err.Some? {
      return [], err;
    }
    assert allocated(Entries(out));
    AdmissibleFields(utf8, View(out), defaultRevision, limits);
    var rebuilt;
    rebuilt, err := Marshal(utf8, out, defaultRevision, limits);
    again := rebuilt[..];
  }

  lemma {:induction false} FieldsAreInjective(fs: seq<bytes>, gs: seq<bytes>)
    requires forall k | 0 <= k < |fs| :: |fs[k]| <= MAX_UINT16
    requires forall k | 0 <= k < |gs| :: |gs[k]| <= MAX_UINT16
    requires EncodeFields(fs) == EncodeFields(gs)
    ensures fs == gs
  {
    if fs != [] && gs != [] {
      FieldIsPrefixFree(fs[0], gs[0], EncodeFields(fs[1..]), EncodeFields(gs[1..]));
      FieldsAreInjective(fs[1..], gs[1..]);
      assert fs == [fs[0]] + fs[1..] && gs == [gs[0]] + gs[1..];
    }
  }

  lemma {:induction false} FlatIsInjective(es: seq<Observation>, ds: seq<Observation>)
    requires Flat(es) == Flat(ds)
    ensures es == ds
  {
    assert |es| == |ds|;
    forall i | 0 <= i < |es| ensures es[i] == ds[i] {
      FlatAt(es, i);
      FlatAt(ds, i);
      assert [es[i].provider, es[i].connection, es[i].revision] == [ds[i].provider, ds[i].connection, ds[i].revision];
    }
  }

  /** No two admissible observation lists share a frame. */
  lemma FrameIsInjective(
    utf8: bytes -> bool, es: seq<Observation>, ds: seq<Observation>, defaultRevision: bytes, limits: Limits)
    requires Admissible(utf8, es, defaultRevision, limits) && Admissible(utf8, ds, defaultRevision, limits)
    requires Frame(es) == Frame(ds)
    ensures es == ds
  {
    AdmissibleFields(utf8, es, defaultRevision, limits);
    AdmissibleFields(utf8, ds, defaultRevision, limits);
    assert EncodeFields(Flat(es)) == Frame(es)[3..] == Frame(ds)[3..] == EncodeFields(Flat(ds));
    FieldsAreInjective(Flat(es), Flat(ds));
    FlatIsInjective(es, ds);
  }

  // ---------- branching histories ----------

  /** How a context came about: a branch of appends and clears, shared with its siblings up to the fork. */
  datatype History =
    | Start
    | Appended(before: History, entry: Observation)
    | Cleared(before: History)
    | Other(before: History)                              // some other value is put into the context

  function SinceClear(h: History): seq<Observation> {
    match h
    case Start => []
    case Appended(before, entry) => SinceClear(before) + [entry]
    case Cleared(_) => []
    case Other(before) => SinceClear(before)
  }

  function TimesSinceClear(h: History, provider: bytes, connection: bytes): nat {
    match h
    case Start => 0
    case Appended(before, e) =>
      TimesSinceClear(before, provider, connection)
      + if e.provider == provider && e.connection == connection then 1 else 0
    case Cleared(_) => 0
    case Other(before) => TimesSinceClear(before, provider, connection)
  }

  /** later was reached from h by appends and other values alone. */
  ghost predicate AppendedTo(later: History, h: History) {
    later == h || ((later.Appended? || later.Other?) && AppendedTo(later.before, h))
  }

  /** Performing a history, and asking at its end, gives the answer its appends since the last clear call for. */
  method Replay(h: History, provider: bytes, connection: bytes)
    returns (ctx: Context, revision: bytes, found: bool)
    ensures View(ctx) == SinceClear(h)
    ensures found <==> TimesSinceClear(h, provider, connection) > 0
    ensures TimesSinceClear(h, provider, connection) == 1 ==>
      Observation(provider, connection, revision) in SinceClear(h)
    ensures TimesSinceClear(h, provider, connection) != 1 ==> revision == []
  {
    match h {
      case Start =>
        ctx := Background;
      case Appended(before, entry) =>
        var earlier, _, _ := Replay(before, provider, connection);
        ctx := Append(earlier, entry);
      case Cleared(before) =>
        var earlier, _, _ := Replay(before, provider, connection);
        ctx := Clear(earlier);
      case Other(before) =>
        var earlier, _, _ := Replay(before, provider, connection);
        ctx := WithOther(earlier);
    }
    OccurrencesSinceClear(h, provider, connection);
    assert allocated(Entries(ctx));
    revision, found := Qualified(ctx, provider, connection);
  }

  lemma {:induction false} OccurrencesSinceClear(h: History, provider: bytes, connection: bytes)
    ensures Occurrences(SinceClear(h), provider, connection) == TimesSinceClear(h, provider, connection)
  {
    if h.Other? {
      OccurrencesSinceClear(h.before, provider, connection);
    } else if h.Appended? {
      OccurrencesSinceClear(h.before, provider, connection);
      assert SinceClear(h)[..|SinceClear(h)| - 1] == SinceClear(h.before);
    }
  }

  lemma {:induction false} DistinctPairsOccurOnce(es: seq<Observation>, provider: bytes, connection: bytes)
    requires DistinctPairs(es)
    ensures Occurrences(es, provider, connection) <= 1
    ensures (forall i | 0 <= i < |es| :: es[i].provider != provider || es[i].connection != connection) ==>
      Occurrences(es, provider, connection) == 0
  {
    if es != [] {
      DistinctPairsOccurOnce(es[..|es| - 1], provider, connection);
    }
  }

  /** A pair that occurred twice blocks marshalling in every later context until a clear. */
  lemma {:induction false} RepeatedPairNeverMarshals(
    utf8: bytes -> bool, h: History, later: History, provider: bytes, connection: bytes,
    defaultRevision: bytes, limits: Limits)
    requires TimesSinceClear(h, provider, connection) >= 2 && AppendedTo(later, h)
    ensures SinceClear(later) != [] && !Admissible(utf8, SinceClear(later), defaultRevision, limits)
    ensures TimesSinceClear(later, provider, connection) >= 2
  {
    if later != h {
      RepeatedPairNeverMarshals(utf8, h, later.before, provider, connection, defaultRevision, limits);
    }
    OccurrencesSinceClear(later, provider, connection);
    if DistinctPairs(SinceClear(later)) {
      DistinctPairsOccurOnce(SinceClear(later), provider, connection);
    }
  }
}
