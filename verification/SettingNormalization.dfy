/**
  Normalisation of setting values to the canonical shape of their declared type: numbers of every
  width, floats, JSON numbers and arrays.  Go's dynamic values are one datatype; a float is an exact
  rational, a NaN or an infinity; a JSON number is its decimal literal.
 */
module SettingNormalization {

  import opened Wrappers
  import Decimal

  datatype SettingType =
    | Unset | Text | Select | MultiSelect | Integer | Float | Toggle | Color | DateTime | Password | Other(name: string)

  datatype Number = Finite(q: real) | NaN | Infinite(negative: bool)

  /**
    A JSON text: a plain integer, or a literal with a fraction or an exponent part.  `mantissa` are all its
    digits without the point, `fraction` counts those after the point, `exponent` is the one written.
   */
  datatype Literal = NotANumber | Plain(digits: int) | Scaled(mantissa: int, fraction: nat, exponent: int)

  datatype Val =
    | Nil
    | Bool(b: bool)
    | Str(s: string)
    | Int(n: int)                           // int
    | Small(n: int)                         // int8, int16, int32
    | Int64(n: int)
    | Unsigned(n: int)                      // every unsigned width
    | Float32(x: Number)
    | Float64(x: Number)
    | JSONNumber(literal: Literal)
    | Strings(strings: seq<string>)
    | Ints(ints: seq<int>)
    | Floats(floats: seq<Number>)
    | Bools(bools: seq<bool>)
    | Anys(anys: seq<Val>)
    | Object(tag: int)                      // maps and every other type

  /** 2^(bits-1) of the platform int, rounding of 64-bit integers to float64, and decimal parsing. */
  datatype Platform = Platform(intBound: int, round: int -> real, parse: Literal -> Option<real>)

  const TWO_TO_31: int := 0x8000_0000
  const TWO_TO_63: int := 0x8000_0000_0000_0000

  ghost predicate ValidPlatform(p: Platform) {
    p.intBound == TWO_TO_31 || p.intBound == TWO_TO_63
  }

  /** The integers lie in the ranges of their Go types. */
  ghost predicate InRange(p: Platform, v: Val) {
    match v
    case Int(n) => -p.intBound <= n < p.intBound
    case Small(n) => -TWO_TO_31 <= n < TWO_TO_31
    case Int64(n) => -TWO_TO_63 <= n < TWO_TO_63
    case Unsigned(n) => 0 <= n < 2 * TWO_TO_63
    case _ => true
  }

  // ---------- numbers ----------

  function NormalizeFloat(p: Platform, kind: SettingType, x: Number): Option<Val> {
    if !x.Finite? then None
    else if kind == Float then Some(Float64(x))
    else if x.q.Floor as real != x.q || x.q < -(p.intBound as real) || x.q >= p.intBound as real then None
    else Some(Int(x.q.Floor))
  }

  const MAX_RATIONAL_EXPONENT: int := 1_000_000

  /** The literals that are read as rationals: others have exponents the reader will not expand. */
  predicate Readable(l: Literal) {
    match l
    case Scaled(m, fraction, exponent) =>
      && -TWO_TO_63 <= exponent < TWO_TO_63
      && (m == 0 || -MAX_RATIONAL_EXPONENT <= exponent - fraction <= MAX_RATIONAL_EXPONENT)
    case _ => true
  }

  /** mantissa * 10^exponent, when that is an integer. */
  function ScaledInteger(m: int, e: int): Option<int> {
    if e >= 0 then Some(m * Decimal.Pow10(e))
    else
      Decimal.PowersArePositive(-e);
      if m % Decimal.Pow10(-e) == 0 then Some(m / Decimal.Pow10(-e)) else None
  }

  /** The exact rational, when it is read at all and is an integer. */
  function ExactInteger(l: Literal): Option<int> {
    match l
    case NotANumber => None
    case Plain(n) => Some(n)
    case Scaled(m, fraction, exponent) => if Readable(l) then ScaledInteger(m, exponent - fraction) else None
  }

  function NormalizeJSONNumber(p: Platform, kind: SettingType, l: Literal): Option<Val> {
    if l.NotANumber? then None
    else if kind != Integer then
      var number := p.parse(l);
      if number.None? then None else NormalizeFloat(p, kind, Finite(number.value))
    else if l.Plain? && -p.intBound <= l.digits < p.intBound then Some(Int(l.digits))
    else
      var exact := ExactInteger(l);
      if exact.None? || !(-TWO_TO_63 <= exact.value < TWO_TO_63) then None
      else if !(-p.intBound <= exact.value < p.intBound) then None
      else Some(Int(exact.value))
  }

  function NormalizeUnsigned(p: Platform, kind: SettingType, n: int): Option<Val> {
    if kind == Float then Some(Float64(Finite(p.round(n))))
    else if n > p.intBound - 1 then None
    else Some(Int(n))
  }

  function NormalizeNumber(p: Platform, kind: SettingType, v: Val): Option<Val> {
    match v
    case Int(n) => if kind == Integer then Some(v) else NormalizeFloat(p, kind, Finite(p.round(n)))
    case Small(n) => NormalizeFloat(p, kind, Finite(n as real))
    case Int64(n) =>
      if kind == Integer then if -p.intBound <= n < p.intBound then Some(Int(n)) else None
      else NormalizeFloat(p, kind, Finite(p.round(n)))
    case Unsigned(n) => NormalizeUnsigned(p, kind, n)
    case Float32(x) => NormalizeFloat(p, kind, x)
    case Float64(x) => NormalizeFloat(p, kind, x)
    case JSONNumber(l) => NormalizeJSONNumber(p, kind, l)
    case _ => None
  }

  function NormalizeScalar(p: Platform, kind: SettingType, v: Val): Option<Val> {
    if kind == Toggle then if v.Bool? then Some(v) else None
    else if kind != Integer && kind != Float then if v.Str? then Some(v) else None
    else NormalizeNumber(p, kind, v)
  }

  // ---------- the number an input denotes ----------

  /** m with its decimal point moved e places. */
  ghost function ScaledReal(m: int, e: int): real
    decreases if e < 0 then -e else e
  {
    if e == 0 then m as real
    else if e > 0 then 10.0 * ScaledReal(m, e - 1)
    else ScaledReal(m, e + 1) / 10.0
  }

  /** The rational a finite numeric input stands for. */
  ghost function Denoted(v: Val): Option<real> {
    match v
    case Int(n) => Some(n as real)
    case Small(n) => Some(n as real)
    case Int64(n) => Some(n as real)
    case Unsigned(n) => Some(n as real)
    case Float32(x) => if x.Finite? then Some(x.q) else None
    case Float64(x) => if x.Finite? then Some(x.q) else None
    case JSONNumber(Plain(n)) => Some(n as real)
    case JSONNumber(Scaled(m, fraction, exponent)) => Some(ScaledReal(m, exponent - fraction))
    case _ => None
  }

  lemma {:induction false} ScalingUp(m: int, e: nat)
    ensures ScaledReal(m, e) == (m * Decimal.Pow10(e)) as real
  {
    if e > 0 {
      ScalingUp(m, e - 1);
      TenTimes(m, Decimal.Pow10(e - 1));
    }
  }

  lemma {:induction false} ScalingDown(m: int, k: int, n: int)
    requires k >= 0
    ensures ScaledReal(m, -k) == n as real <==> m == n * Decimal.Pow10(k)
  {
    if k > 0 {
      ScalingDown(m, k - 1, 10 * n);
      TenTimes(n, Decimal.Pow10(k - 1));
    }
  }

  lemma TenTimes(n: int, k: int)
    ensures n * (10 * k) == 10 * (n * k) == (10 * n) * k
  {}

  lemma DivisionIsExact(m: int, d: int, n: int)
    requires d > 0
    ensures m == n * d <==> m % d == 0 && m / d == n
  {
    assert m == d * (m / d) + m % d;
    if m == n * d {
      assert d * (n - m / d) == m % d;
      ProductIsApart(d, n - m / d);
    }
  }

  lemma ProductIsApart(d: int, x: int)
    requires d > 0
    ensures x >= 1 ==> d * x >= d
    ensures x <= -1 ==> d * x <= -d
  {
    assert d * x == d + d * (x - 1) == -d + d * (x + 1);
  }

  lemma ScaledIntegerDenotes(m: int, e: int, n: int)
    ensures ScaledInteger(m, e) == Some(n) <==> ScaledReal(m, e) == n as real
  {
    hide ScaledReal;
    if e >= 0 {
      ScalingUp(m, e);
    } else {
      ScalingDown(m, -e, n);
      Decimal.PowersArePositive(-e);
      DivisionIsExact(m, Decimal.Pow10(-e), n);
    }
  }

  /** A literal yields the integer it denotes exactly when it is one that is read. */
  lemma ExactIntegerDenotes(l: Literal, n: int)
    ensures ExactInteger(l) == Some(n) <==> Readable(l) && Denoted(JSONNumber(l)) == Some(n as real)
  {
    hide ScaledInteger, ScaledReal;
    if l.Scaled? {
      ScaledIntegerDenotes(l.mantissa, l.exponent - l.fraction, n);
    }
  }

  /**
    Every path -- int, narrow, unsigned, float, JSON -- agrees: an Integer setting accepts a number
    exactly when what it denotes is an integer of the platform int, and stores that integer -- but for
    JSON literals with exponents that are not read.
   */
  lemma IntegerAcceptsExactly(p: Platform, v: Val, n: int)
    requires ValidPlatform(p) && InRange(p, v)
    ensures NormalizeScalar(p, Integer, v) == Some(Int(n))
       <==> Denoted(v) == Some(n as real) && -p.intBound <= n < p.intBound
            && match v
               case JSONNumber(Scaled(m, fraction, exponent)) =>
                 && -0x8000_0000_0000_0000 <= exponent <= 0x7fff_ffff_ffff_ffff
                 && (m == 0 || -1_000_000 <= exponent - fraction <= 1_000_000)
               case _ => true
    ensures NormalizeScalar(p, Integer, v).Some? ==> NormalizeScalar(p, Integer, v).value.Int?
  {
    hide ScaledReal, ScaledInteger;
    if v.JSONNumber? {
      ExactIntegerDenotes(v.literal, n);
    } else if v.Float32? || v.Float64? {
      if v.x.Finite? && v.x.q == n as real {
        assert v.x.q.Floor == n;
      }
    }
  }

  /** 0e99999999999999999999 is a JSON number that denotes zero, and is refused. */
  lemma HugeExponentIsRefused(p: Platform)
    ensures var v := JSONNumber(Scaled(0, 0, 99999999999999999999));
      Denoted(v) == Some(0.0) && NormalizeScalar(p, Integer, v) == None
  {
    hide ScaledReal;
    ScalingUp(0, 99999999999999999999);
  }

  /** The finite number an input stands for as a float64: itself, rounded, or parsed. */
  ghost function AsFloat(p: Platform, v: Val): Option<real> {
    match v
    case Int(n) => Some(p.round(n))
    case Small(n) => Some(n as real)
    case Int64(n) => Some(p.round(n))
    case Unsigned(n) => Some(p.round(n))
    case Float32(Finite(q)) => Some(q)
    case Float64(Finite(q)) => Some(q)
    case JSONNumber(Plain(n)) => p.parse(Plain(n))
    case JSONNumber(Scaled(m, fraction, exponent)) => p.parse(Scaled(m, fraction, exponent))
    case _ => None
  }

  /** A Float setting takes exactly the inputs that stand for a finite number, and stores it. */
  lemma FloatAcceptsExactly(p: Platform, v: Val, w: Val)
    ensures NormalizeScalar(p, Float, v) == Some(w)
       <==> AsFloat(p, v).Some? && w == Float64(Finite(AsFloat(p, v).value))
  {}

  /** Toggles take booleans and every kind but the numbers takes strings, as they are. */
  lemma OthersAcceptTheirType(p: Platform, kind: SettingType, v: Val, w: Val)
    requires !kind.Integer? && !kind.Float?
    ensures NormalizeScalar(p, kind, v) == Some(w) <==> w == v && if kind.Toggle? then v.Bool? else v.Str?
  {}

  // ---------- arrays ----------

  function ScalarKind(v: Val, fallback: SettingType): SettingType {
    match v
    case Int(_) => Integer
    case Float64(_) => Float
    case Bool(_) => Toggle
    case Str(_) => Text
    case _ => if fallback == Select then Text else fallback
  }

  /** The element type of the array settings of this kind; everything but numbers and toggles is text. */
  function ElementKind(kind: SettingType): SettingType {
    if kind == Integer || kind == Float || kind == Toggle then kind else Text
  }

  predicate IsSlice(v: Val) {
    v.Strings? || v.Ints? || v.Floats? || v.Bools? || v.Anys?
  }

  function Elements(v: Val): seq<Val>
    requires IsSlice(v)
  {
    match v
    case Strings(xs) => seq(|xs|, i requires 0 <= i < |xs| => Str(xs[i]))
    case Ints(xs) => seq(|xs|, i requires 0 <= i < |xs| => Int(xs[i]))
    case Floats(xs) => seq(|xs|, i requires 0 <= i < |xs| => Float64(xs[i]))
    case Bools(xs) => seq(|xs|, i requires 0 <= i < |xs| => Bool(xs[i]))
    case Anys(xs) => xs
  }

  /** The elements of a slice are its own, in their order. */
  lemma ElementsInOrder(v: Val)
    ensures match v
      case Strings(xs) => |Elements(v)| == |xs| && forall i | 0 <= i < |xs| :: Elements(v)[i] == Str(xs[i])
      case Ints(xs) => |Elements(v)| == |xs| && forall i | 0 <= i < |xs| :: Elements(v)[i] == Int(xs[i])
      case Floats(xs) => |Elements(v)| == |xs| && forall i | 0 <= i < |xs| :: Elements(v)[i] == Float64(xs[i])
      case Bools(xs) => |Elements(v)| == |xs| && forall i | 0 <= i < |xs| :: Elements(v)[i] == Bool(xs[i])
      case Anys(xs) => Elements(v) == xs
      case _ => !IsSlice(v)
  {}

  /** A typed slice of the element kind with these elements. */
  ghost predicate IsSliceOf(kind: SettingType, elements: seq<Val>, v: Val) {
    && IsSlice(v) && Elements(v) == elements
    && (kind == Integer ==> v.Ints?) && (kind == Float ==> v.Floats?) && (kind == Toggle ==> v.Bools?)
    && (kind != Integer && kind != Float && kind != Toggle ==> v.Strings?)
  }

  predicate HasType(kind: SettingType, v: Val) {
    if kind == Integer then v.Int?
    else if kind == Float then v.Float64?
    else if kind == Toggle then v.Bool?
    else v.Str?
  }

  function Typed(kind: SettingType, elements: seq<Val>): (v: Val)
    requires forall i | 0 <= i < |elements| :: HasType(kind, elements[i])
    ensures IsSliceOf(kind, elements, v)
  {
    if kind == Integer then
      Ints(seq(|elements|, i requires 0 <= i < |elements| && HasType(kind, elements[i]) => elements[i].n))
    else if kind == Float then
      Floats(seq(|elements|, i requires 0 <= i < |elements| && HasType(kind, elements[i]) => elements[i].x))
    else if kind == Toggle then
      Bools(seq(|elements|, i requires 0 <= i < |elements| && HasType(kind, elements[i]) => elements[i].b))
    else
      Strings(seq(|elements|, i requires 0 <= i < |elements| && HasType(kind, elements[i]) => elements[i].s))
  }

  /** Every element normalised, or none when one of them cannot be. */
  function NormalizeAll(p: Platform, kind: SettingType, vs: seq<Val>): (r: Option<seq<Val>>)
    ensures r.Some? <==> forall i | 0 <= i < |vs| :: NormalizeScalar(p, kind, vs[i]).Some?
    ensures r.Some? ==> |r.value| == |vs| && forall i | 0 <= i < |vs| ::
      Some(r.value[i]) == NormalizeScalar(p, kind, vs[i]) && HasType(kind, r.value[i])
  {
    if vs == [] then Some([])
    else
      var front := NormalizeAll(p, kind, vs[..|vs| - 1]);
      var last := NormalizeScalar(p, kind, vs[|vs| - 1]);
      if front.None? || last.None? then None else Some(front.value + [last.value])
  }

  /** The loop that fills the typed slice and stops at the first element it cannot normalise. */
  method NormalizeElements(p: Platform, kind: SettingType, vs: seq<Val>) returns (out: Option<Val>)
    ensures out.Some? <==> NormalizeAll(p, kind, vs).Some?
    ensures out.Some? ==> IsSliceOf(kind, NormalizeAll(p, kind, vs).value, out.value)
  {
    hide NormalizeScalar, Elements;
    var filled: seq<Val> := [];
    for i := 0 to |vs|
      invariant NormalizeAll(p, kind, vs[..i]) == Some(filled)
    {
      var normalized := NormalizeScalar(p, kind, vs[i]);
      assert vs[..i + 1][..i] == vs[..i];
      if normalized.None? {
        return None;
      }
      filled := filled + [normalized.value];
    }
    assert vs[..|vs|] == vs;
    return Some(Typed(kind, filled));
  }

  predicate AllFinite(xs: seq<Number>) {
    forall i | 0 <= i < |xs| :: xs[i].Finite?
  }

  function NormalizeArray(p: Platform, kind: SettingType, v: Val): Option<Val> {
    if v.Strings? && kind != Integer && kind != Float && kind != Toggle then Some(v)
    else if v.Ints? && kind == Integer then Some(v)
    else if v.Floats? && kind == Float then if AllFinite(v.floats) then Some(v) else None
    else if v.Bools? && kind == Toggle then Some(v)
    else if !IsSlice(v) then None
    else
      var elements := NormalizeAll(p, ElementKind(kind), Elements(v));
      if elements.None? then None else Some(Typed(ElementKind(kind), elements.value))
  }

  // ---------- whole values ----------

  /** w holds what the elements of v are converted to, in a slice of the element type. */
  ghost predicate IsConverted(p: Platform, kind: SettingType, v: Val, w: Val) {
    && (match kind
        case Integer => w.Ints?
        case Float => w.Floats?
        case Toggle => w.Bools?
        case _ => w.Strings?)
    && IsSlice(v) && |Elements(w)| == |Elements(v)|
    && forall i | 0 <= i < |Elements(v)| ::
         NormalizeScalar(p, ElementKind(kind), Elements(v)[i]) == Some(Elements(w)[i])
  }

  ghost predicate HasBadElement(p: Platform, kind: SettingType, v: Val) {
    IsSlice(v) && exists i :: 0 <= i < |Elements(v)| && NormalizeScalar(p, ElementKind(kind), Elements(v)[i]).None?
  }

  lemma ElementsConverted(p: Platform, kind: SettingType, v: Val)
    requires IsSlice(v)
    ensures match NormalizeAll(p, ElementKind(kind), Elements(v))
      case Some(es) => IsConverted(p, kind, v, Typed(ElementKind(kind), es))
      case None => HasBadElement(p, kind, v)
  {
    hide NormalizeScalar, Elements;
  }

  /** A typed slice of the element kind is kept, unless it has a number that is not finite. */
  lemma TypedSliceKept(p: Platform, kind: SettingType, v: Val)
    requires match ElementKind(kind)
      case Integer => v.Ints?
      case Float => v.Floats?
      case Toggle => v.Bools?
      case _ => v.Strings?
    ensures if v.Floats? && !AllFinite(v.floats) then HasBadElement(p, kind, v) else IsConverted(p, kind, v, v)
  {
    if v.Floats? {
      assert forall i | 0 <= i < |v.floats| :: Elements(v)[i] == Float64(v.floats[i]);
    }
  }

  /** Arrays are converted element by element, and refused exactly when an element is, or for not being one. */
  lemma ArrayIsElementwise(p: Platform, kind: SettingType, v: Val)
    ensures match NormalizeArray(p, kind, v)
      case Some(w) => IsConverted(p, kind, v, w)
      case None => !IsSlice(v) || HasBadElement(p, kind, v)
  {
    hide NormalizeAll, Elements, IsConverted, HasBadElement, AllFinite;
    if (v.Ints? && kind == Integer) || (v.Floats? && kind == Float) || (v.Bools? && kind == Toggle)
       || (v.Strings? && kind != Integer && kind != Float && kind != Toggle) {
      TypedSliceKept(p, kind, v);
    } else if IsSlice(v) {
      ElementsConverted(p, kind, v);
    }
  }

  /** The parts of a setting that decide its shape. */
  datatype Shape = Shape(kind: SettingType, multiple: bool, default_: Val, current: Val)

  function NormalizationShape(s: Shape, schema: Val): (SettingType, bool) {
    var isArray := s.kind == MultiSelect || s.multiple || IsSlice(schema);
    var kind :=
      if (s.kind == Unset || s.kind == Select || s.kind == MultiSelect) && schema.Anys? && schema.anys != [] then
        ScalarKind(schema.anys[0], s.kind)
      else s.kind;
    if !isArray then (kind, false)
    else
      var typed := if schema.Ints? then Integer
                   else if schema.Floats? then Float
                   else if schema.Bools? then Toggle
                   else if schema.Strings? then Text
                   else kind;
      (if typed == MultiSelect || typed == Select then Text else typed, true)
  }

  function NormalizeValue(p: Platform, s: Shape, v: Val): Option<Val> {
    var schema := if s.default_.Nil? then s.current else s.default_;
    var (shape, isArray) := NormalizationShape(s, schema);
    if isArray then NormalizeArray(p, shape, v)
    else if shape == Select || shape == Unset then
      var kind := ScalarKind(schema, shape);
      if kind == Unset then Some(v) else NormalizeScalar(p, kind, v)
    else NormalizeScalar(p, shape, v)
  }

  // ---------- what shape a setting gives its values ----------

  /** One scalar or a slice of scalars of one of the four Go types, or whatever comes. */
  datatype ResultType = Anything | One(kind: SettingType) | Many(kind: SettingType)

  /** The declared element type, when the declaration says one. */
  ghost function DeclaredKind(kind: SettingType): Option<SettingType> {
    match kind
    case Unset => None
    case Select => None
    case MultiSelect => None
    case Integer => Some(Integer)
    case Float => Some(Float)
    case Toggle => Some(Toggle)
    case _ => Some(Text)
  }

  /** The element type a value shows. */
  ghost function ShownKind(v: Val): Option<SettingType> {
    match v
    case Int(_) => Some(Integer)
    case Float64(_) => Some(Float)
    case Bool(_) => Some(Toggle)
    case Str(_) => Some(Text)
    case _ => None
  }

  ghost function FirstKnown(a: Option<SettingType>, b: Option<SettingType>): SettingType {
    if a.Some? then a.value else if b.Some? then b.value else Text
  }

  /**
    A typed slice as schema decides alone; an untyped one asks the declaration, then its first element;
    with any other schema the declaration comes first, too, and a select takes text.
   */
  ghost function ResultTypeOf(s: Shape): ResultType {
    match if s.default_.Nil? then s.current else s.default_
    case Ints(_) => Many(Integer)
    case Floats(_) => Many(Float)
    case Bools(_) => Many(Toggle)
    case Strings(_) => Many(Text)
    case Anys(vs) => Many(FirstKnown(DeclaredKind(s.kind), if vs == [] then None else ShownKind(vs[0])))
    case schema =>
      if s.multiple || s.kind.MultiSelect? then Many(FirstKnown(DeclaredKind(s.kind), None))
      else if s.kind.Unset? && ShownKind(schema).None? then Anything
      else One(FirstKnown(DeclaredKind(s.kind), ShownKind(schema)))
  }

  lemma ShapeIsResultType(s: Shape)
    ensures var schema := if s.default_.Nil? then s.current else s.default_;
      var (shape, isArray) := NormalizationShape(s, schema);
      ResultTypeOf(s)
      == if isArray then Many(ElementKind(shape))
         else if shape != Select && shape != Unset then One(ElementKind(shape))
         else if ScalarKind(schema, shape) == Unset then Anything
         else One(ElementKind(ScalarKind(schema, shape)))
  {}

  /** Whatever the setting, a value is taken as it is, as one scalar, or element by element. */
  lemma NormalizationMeetsType(p: Platform, s: Shape, v: Val)
    ensures match ResultTypeOf(s)
      case Anything => NormalizeValue(p, s, v) == Some(v)
      case One(kind) => NormalizeValue(p, s, v) == NormalizeScalar(p, kind, v)
      case Many(kind) => NormalizeValue(p, s, v) == NormalizeArray(p, kind, v)
  {
    hide NormalizeScalar, NormalizeArray, NormalizationShape, ResultTypeOf, ElementKind, ScalarKind;
    ShapeIsResultType(s);
    var schema := if s.default_.Nil? then s.current else s.default_;
    var (shape, isArray) := NormalizationShape(s, schema);
    SameElementKind(p, shape, v);
    SameScalarKind(p, shape, v);
    SameScalarKind(p, ScalarKind(schema, shape), v);
  }

  lemma SameScalarKind(p: Platform, kind: SettingType, v: Val)
    ensures NormalizeScalar(p, kind, v) == NormalizeScalar(p, ElementKind(kind), v)
  {}

  lemma SameElementKind(p: Platform, kind: SettingType, v: Val)
    ensures NormalizeArray(p, kind, v) == NormalizeArray(p, ElementKind(kind), v)
  {}

  lemma ScalarIsIdempotent(p: Platform, kind: SettingType, v: Val)
    requires NormalizeScalar(p, kind, v).Some?
    ensures NormalizeScalar(p, kind, NormalizeScalar(p, kind, v).value) == NormalizeScalar(p, kind, v)
    ensures HasType(kind, NormalizeScalar(p, kind, v).value)
  {}

  lemma ArrayIsIdempotent(p: Platform, kind: SettingType, v: Val)
    requires NormalizeArray(p, kind, v).Some?
    ensures NormalizeArray(p, kind, NormalizeArray(p, kind, v).value) == NormalizeArray(p, kind, v)
  {
    var out := NormalizeArray(p, kind, v).value;
    if out.Floats? && kind == Float && !v.Floats? {
      var elements := NormalizeAll(p, Float, Elements(v)).value;
      forall i | 0 <= i < |out.floats| ensures out.floats[i].Finite? {
        assert Elements(out)[i] == Float64(out.floats[i]) == elements[i];
      }
    }
  }

  /** A value accepted once is a fixed point, whatever the setting then holds; the schema is its default. */
  lemma NormalizationIsIdempotent(p: Platform, s: Shape, v: Val, held: Val)
    requires s.default_ != Nil && NormalizeValue(p, s, v).Some?
    ensures NormalizeValue(p, s.(current := held), NormalizeValue(p, s, v).value) == NormalizeValue(p, s, v)
  {
    hide NormalizeArray, NormalizeScalar, ScalarKind;
    var (shape, isArray) := NormalizationShape(s, s.default_);
    if isArray {
      ArrayIsIdempotent(p, shape, v);
    } else {
      AcceptedScalarIsFixed(p, ScalarKind(s.default_, shape), v);
      AcceptedScalarIsFixed(p, shape, v);
    }
  }

  lemma AcceptedScalarIsFixed(p: Platform, kind: SettingType, v: Val)
    ensures NormalizeScalar(p, kind, v).Some? ==>
      NormalizeScalar(p, kind, NormalizeScalar(p, kind, v).value) == NormalizeScalar(p, kind, v)
  {
    if NormalizeScalar(p, kind, v).Some? {
      ScalarIsIdempotent(p, kind, v);
    }
  }

  /** The setting has no type, neither declared nor by what it holds, so it takes any value as it is. */
  predicate IsUntyped(s: Shape) {
    && s.kind == Unset && !s.multiple && s.default_.Nil?
    && !IsSlice(s.current) && ScalarKind(s.current, Unset) == Unset
  }

  /** As its own schema the value would be normalised: to a typed slice, or to a finite number. */
  predicate IsUnstable(v: Val) {
    v.Anys? || (v.Float64? && !v.x.Finite?) || (v.Floats? && !AllFinite(v.floats))
  }

  /** Held by a setting of arrays, a typed slice has the setting's own shape. */
  lemma HeldSliceKeepsShape(p: Platform, s: Shape, v: Val, w: Val)
    requires s.default_.Nil? && NormalizationShape(s, s.current).1
    requires NormalizeArray(p, NormalizationShape(s, s.current).0, v) == Some(w)
    ensures var (shape, isArray) := NormalizationShape(s, w);
      isArray && NormalizeArray(p, shape, w) == Some(w)
  {
    ArrayIsIdempotent(p, NormalizationShape(s, s.current).0, v);
    hide NormalizeAll, Elements, NormalizeScalar, AllFinite;
  }

  lemma HeldByTypedSetting(p: Platform, s: Shape, v: Val, w: Val)
    requires s.default_.Nil? && NormalizeValue(p, s, v) == Some(w) && !IsUntyped(s)
    ensures NormalizeValue(p, s.(current := w), w) == Some(w)
  {
    hide NormalizeAll, Elements, NormalizeArray;
    var (shape, isArray) := NormalizationShape(s, s.current);
    if isArray {
      HeldSliceKeepsShape(p, s, v, w);
    } else {
      AcceptedScalarIsFixed(p, ScalarKind(s.current, shape), v);
      AcceptedScalarIsFixed(p, shape, v);
    }
  }

  lemma HeldByUntypedSetting(p: Platform, s: Shape, v: Val)
    requires IsUntyped(s)
    ensures NormalizeValue(p, s, v) == Some(v)
    ensures NormalizeValue(p, s.(current := v), v) == Some(v) <==> !IsUnstable(v)
  {
    hide NormalizeAll, Elements;
  }

  /**
    Without a default the held value is the schema.  Once held, an accepted value is a fixed point
    unless the setting was untyped and the value is an untyped array or has a number that is not finite.
   */
  lemma NilDefaultIsIdempotentUnless(p: Platform, s: Shape, v: Val, w: Val)
    requires s.default_.Nil? && NormalizeValue(p, s, v) == Some(w)
    ensures NormalizeValue(p, s.(current := w), w) == Some(w) <==> !(IsUntyped(s) && IsUnstable(v))
  {
    hide NormalizeValue, IsUntyped, IsUnstable;
    if IsUntyped(s) {
      HeldByUntypedSetting(p, s, v);
    } else {
      HeldByTypedSetting(p, s, v, w);
    }
  }

  /** For one, a value accepted once may be refused once it is held. */
  lemma NilDefaultIsNotIdempotent(p: Platform)
    ensures var s := Shape(Unset, false, Nil, Nil); var v := Anys([Str(""), Bool(true)]);
      && NormalizeValue(p, s, v) == Some(v)
      && NormalizeValue(p, s.(current := v), v) == None
  {
    var v := Anys([Str(""), Bool(true)]);
    assert NormalizeScalar(p, Text, Elements(v)[1]).None?;
  }
}
