/**
 * `DecimalEncoder.default`: how the handler's JSON encoder writes the
 * `Decimal` numbers that DynamoDB returns: an integral one as a JSON integer,
 * any other as a float. Anything else it is handed is a TypeError.
 */
module DecimalJson {
  import opened Wrappers
  import opened PyJson
  import opened PyInt

  /** What the encoder's `default` hook can be handed: a `Decimal`, or some other object it cannot encode. */
  datatype Encodable = Decimal(d: real) | Unsupported

  /** A JSON number literal. */
  datatype JsonNumber = IntLit(i: int) | FloatLit(f: real)

  function NumberValue(n: JsonNumber): real {
    match n
    case IntLit(i) => i as real
    case FloatLit(f) => f
  }

  predicate IsIntegral(d: real) {
    d == d.Floor as real
  }

  /** `d % 1` for a Decimal: the remainder keeps the sign of `d` (truncating division). */
  function DecimalRem(d: real): (r: real)
    ensures -1.0 < r < 1.0
    ensures d >= 0.0 ==> r >= 0.0
    ensures d < 0.0 ==> r <= 0.0
  {
    d - Truncate(d) as real
  }

  lemma IntFloor(n: int)
    ensures (n as real).Floor == n
  {
  }

  /** The remainder is zero exactly for an integral Decimal. */
  lemma DecimalRemZero(d: real)
    ensures DecimalRem(d) == 0.0 <==> IsIntegral(d)
  {
    var t := Truncate(d);
    if DecimalRem(d) == 0.0 {
      assert d == t as real;
      IntFloor(t);
    }
    if IsIntegral(d) {
      IntFloor(d.Floor);
      if d >= 0.0 {
        assert t == d.Floor;
      } else {
        assert -d == (-d.Floor) as real;
        IntFloor(-d.Floor);
        assert t == d.Floor;
      }
    }
  }

  /** `float(obj) if obj % 1 else int(obj)` for a Decimal; `super().default` raises for anything else. */
  function Default(obj: Encodable): (r: Result<JsonNumber, PyError>)
    ensures obj.Unsupported? ==> r == Err(TypeError)
    ensures obj.Decimal? ==> r.Ok? && NumberValue(r.value) == obj.d
    ensures obj.Decimal? ==> (r.value.IntLit? <==> IsIntegral(obj.d))
  {
    match obj
    case Unsupported => Err(TypeError)
    case Decimal(d) =>
      DecimalRemZero(d);
      if DecimalRem(d) != 0.0 then Ok(FloatLit(d)) else Ok(IntLit(Truncate(d)))
  }

  /** A number the encoder writes, read back as a Decimal, is written the same way again. */
  lemma DefaultRoundTrip(n: JsonNumber)
    requires n.FloatLit? ==> !IsIntegral(n.f)
    ensures Default(Decimal(NumberValue(n))) == Ok(n)
  {
    if n.IntLit? {
      assert IsIntegral(n.i as real);
    }
  }

  /** Priorities such as 3 stay integers, and 2.5 becomes a float. */
  lemma DefaultExamples()
    ensures Default(Decimal(3.0)) == Ok(IntLit(3))
    ensures Default(Decimal(-4.0)) == Ok(IntLit(-4))
    ensures Default(Decimal(2.5)) == Ok(FloatLit(2.5))
    ensures Default(Decimal(-0.5)) == Ok(FloatLit(-0.5))
  {
  }
}
