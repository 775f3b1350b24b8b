/** What the calculator takes from the C library and the floating-point hardware,
    over an abstract number type `V` standing for `double`. Every routine is a
    parameter: the model fixes how the calculator combines them, not what they
    compute. `None` stands for a NaN result. */
module CLibrary {
  import opened Wrappers
  import opened Machine

  datatype Lib<!V> = Lib(
    /** `sscanf(s, "%lf", ...)`: None when nothing converts or the text denotes NaN. */
    parseDouble: string -> Option<V>,
    /** `scanf("%d", ...)` applied to one input token. */
    parseInt: string -> Option<int32>,
    /** `scanf("%lld", ...)` applied to one input token. */
    parseLongLong: string -> Option<int64>,
    /** `sscanf(s, "%llx", ...)`. */
    parseHex: string -> Option<int64>,
    /** `(double)` of an integer. */
    fromInt: int -> V,
    /** `(double)(long long)d`: truncation toward zero, back in floating point. */
    truncate: V -> V,
    /** `b == 0`. */
    isZero: V -> bool,
    /** `x <= 0`. */
    isNonPositive: V -> bool,
    add: (V, V) -> Option<V>,
    subtract: (V, V) -> Option<V>,
    multiply: (V, V) -> Option<V>,
    quotient: (V, V) -> Option<V>,
    /** `pow`. */
    power: (V, V) -> Option<V>,
    /** `hypot`. */
    hypot: (V, V) -> V,
    exp: V -> V,
    /** `log` of a positive argument. */
    log: V -> V,
    fabs: V -> V,
    /** `sin`, `cos` and `tan` of an angle given in degrees. */
    sinDeg: V -> Option<V>,
    cosDeg: V -> Option<V>,
    tanDeg: V -> Option<V>,
    /** `fabs(cos(rad)) < 1e-9` and `fabs(sin(rad)) < 1e-9` for an angle in degrees. */
    cosNearZero: V -> bool,
    sinNearZero: V -> bool,
    /** `fabs(t) < 1e-9`. */
    nearZero: V -> bool,
    /** `1.0 / t`. */
    reciprocal: V -> V,
    /** `0.0`. */
    zero: V
  )

  /** `divide(a, b)`: no value when `b == 0`. */
  function Divide<V>(lib: Lib<V>, a: V, b: V): (r: Option<V>)
    ensures lib.isZero(b) ==> r.None?
    ensures !lib.isZero(b) ==> r == lib.quotient(a, b)
  {
    if lib.isZero(b) then None else lib.quotient(a, b)
  }

  /** `logarithm(x)`: no value when `x <= 0`. */
  function Logarithm<V>(lib: Lib<V>, x: V): (r: Option<V>)
    ensures r.Some? <==> !lib.isNonPositive(x)
    ensures r.Some? ==> r.value == lib.log(x)
  {
    if lib.isNonPositive(x) then None else Some(lib.log(x))
  }

  /** `tangent_deg(deg)`: no value near the asymptotes, where the cosine vanishes. */
  function TangentDeg<V>(lib: Lib<V>, deg: V): (r: Option<V>)
    ensures lib.cosNearZero(deg) ==> r.None?
    ensures !lib.cosNearZero(deg) ==> r == lib.tanDeg(deg)
  {
    if lib.cosNearZero(deg) then None else lib.tanDeg(deg)
  }

  /** `cotangent_deg(deg)`: when the tangent has no value the cotangent is 0, unless
      the sine vanishes too; a vanishing tangent gives no value. */
  function CotangentDeg<V>(lib: Lib<V>, deg: V): (r: Option<V>)
    ensures var t := lib.tanDeg(deg);
      lib.cosNearZero(deg) || t.None? ==> r == if lib.sinNearZero(deg) then None else Some(lib.zero)
    ensures var t := lib.tanDeg(deg);
      !lib.cosNearZero(deg) && t.Some? ==>
        && (r.None? <==> lib.nearZero(t.value))
        && (r.Some? ==> r.value == lib.reciprocal(t.value))
  {
    match TangentDeg(lib, deg)
    case None => if lib.sinNearZero(deg) then None else Some(lib.zero)
    case Some(t) => if lib.nearZero(t) then None else Some(lib.reciprocal(t))
  }

  /** `hex_to_dec(s)`: -1 when the text does not convert. A hexadecimal text that
      denotes -1 gives the same answer. */
  function HexToDec<V>(lib: Lib<V>, s: string): (r: int64)
    ensures r == -1 <==> lib.parseHex(s).None? || lib.parseHex(s) == Some(-1)
    ensures lib.parseHex(s).Some? ==> r == lib.parseHex(s).value
  {
    match lib.parseHex(s)
    case None => -1
    case Some(d) => d
  }
}
