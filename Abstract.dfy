/** The integer-backed scalar types: an immutable wrapper around one integer whose concrete
    type decides how the integer is normalised, and the base rules every arithmetic and
    comparison operator follows (`IntType`, `SemitonesScalar`, `FifthsScalar`). */
module Abstract {
  import opened Results
  import opened PyInt
  import PitchHelpers

  /** What the stored integer counts: semitones (reduced mod 12) or fifths (unbounded). */
  datatype Domain = Semitones | Fifths

  /** The second base class of the pitch types; `Plain` for the two base scalar classes. */
  datatype Category = Plain | PitchClass | IntervalClass

  /** A concrete class: the six instantiable classes are the domain/category pairs. */
  datatype Kind = Kind(domain: Domain, category: Category)

  const SemitonesScalar: Kind := Kind(Semitones, Plain)
  const FifthsScalar: Kind := Kind(Fifths, Plain)

  /** An instance: its concrete class and the integer stored in `_value`. */
  datatype IntType = IntType(kind: Kind, value: int)

  /** What construction guarantees: a semitone value is already reduced mod 12. */
  predicate Normalised(x: IntType) {
    x.kind.domain == Semitones ==> 0 <= x.value < 12
  }

  type Scalar = x: IntType | Normalised(x) witness IntType(FifthsScalar, 0)

  /** The other operand of a binary operator: a plain int or another scalar. */
  datatype Operand = Int(n: int) | Val(x: Scalar)

  /** What a constructor may be given. */
  datatype Init = FromInt(n: int) | FromStr(s: string) | FromScalar(x: Scalar)

  /** The comparison operators (`!=` is inherited from `int`; see `NotEqualAsWritten`). */
  datatype Cmp = Eq | Ne | Lt | Le | Gt | Ge

  /** The exceptions the scalar types raise. */
  datatype Error =
    | OperationNotDefined(op: Op, left: Kind, right: Kind)   // NotImplementedError
    | DivModNotDefined(left: Kind, right: Kind)              // NotImplementedError
    | NegationNotDefined(kind: Kind)                         // NotImplementedError
    | ComparisonNotDefined(cmp: Cmp, left: Kind, right: Kind) // NotImplementedError
    | ZeroDivision                                           // ZeroDivisionError
    | InvalidLiteral                                         // ValueError from int(str)
    | FifthsUnavailable                                      // TypeError: int(None)
    | BadName(reason: PitchHelpers.NameError)                // AssertionError from the codec

  /** The `semitones` property: the stored value of a semitone scalar, and 7 semitones per
      fifth, reduced mod 12, for a fifths scalar. */
  function SemitonesOf(x: Scalar): (s: int)
    ensures 0 <= s < 12
    ensures x.kind.domain == Semitones ==> s == x.value
    ensures x.kind.domain == Fifths ==> (s - 7 * x.value) % 12 == 0
  {
    if x.kind.domain == Semitones then x.value else 7 * x.value % 12
  }

  /** The `fifths` property: the stored value of a fifths scalar; a semitone scalar returns
      `None`, since it cannot tell how its pitch is spelled. */
  function FifthsOf(x: Scalar): (f: Option<int>)
    ensures f.Some? <==> x.kind.domain == Fifths
    ensures f.Some? ==> f.value == x.value
  {
    if x.kind.domain == Fifths then Some(x.value) else None
  }

  /** `cls(n)` for an int n, which is how every operator builds its result: a semitone type
      stores n mod 12, a fifths type stores n unchanged. */
  function Wrap(kind: Kind, n: int): (x: Scalar)
    ensures x.kind == kind
    ensures kind.domain == Fifths ==> x.value == n
    ensures kind.domain == Semitones ==> 0 <= x.value < 12 && (x.value - n) % 12 == 0
  {
    IntType(kind, if kind.domain == Semitones then n % 12 else n)
  }

  /** `convert_init_value` of `SemitonesScalar` and of `FifthsScalar`. A semitone type reduces
      `int(value)` mod 12, except that a fifths scalar is first converted to its semitones;
      a fifths type keeps `int(value)`, and for a semitone scalar it gets `None` from the
      `fifths` property, which `int.__new__` rejects. */
  function BaseConvertInit(domain: Domain, init: Init): (r: Result<int, Error>)
    ensures domain == Semitones && r.Ok? ==> 0 <= r.value < 12
    ensures domain == Semitones && init.FromScalar? ==> r == Ok(SemitonesOf(init.x))
    ensures domain == Fifths && init.FromScalar? ==>
      r == if init.x.kind.domain == Fifths then Ok(init.x.value) else Err(FifthsUnavailable)
    ensures init.FromStr? ==> (r.Ok? <==> ParseInt(init.s).Some?)
    ensures init.FromStr? && r.Err? ==> r.error == InvalidLiteral
    ensures init.FromStr? && r.Ok? ==>
      r.value == if domain == Semitones then ParseInt(init.s).value % 12 else ParseInt(init.s).value
    ensures init.FromInt? ==> r == Ok(if domain == Semitones then init.n % 12 else init.n)
  {
    var raw: Result<int, Error> :=
      match init
      case FromInt(n) => Ok(n)
      case FromStr(s) => if ParseInt(s).Some? then Ok(ParseInt(s).value) else Err(InvalidLiteral)
      case FromScalar(y) =>
        if domain == Semitones then
          Ok(if y.kind.domain == Fifths then SemitonesOf(y) else y.value)
        else if y.kind.domain == Semitones then
          Err(FifthsUnavailable)
        else
          Ok(y.value);
    match raw
    case Err(e) => Err(e)
    case Ok(n) => Ok(if domain == Semitones then n % 12 else n)
  }

  /** `SemitonesScalar("62")` stores 2, `SemitonesScalar(-1)` stores 11, `FifthsScalar("-3")`
      stores -3, and `FifthsScalar("C")` raises. */
  lemma BaseConvertInitExamples()
    ensures BaseConvertInit(Semitones, FromStr("62")) == Ok(2)
    ensures BaseConvertInit(Semitones, FromInt(-1)) == Ok(11)
    ensures BaseConvertInit(Fifths, FromStr("-3")) == Ok(-3)
    ensures BaseConvertInit(Fifths, FromStr("C")) == Err(InvalidLiteral)
  {
    assert ParseInt("62") == Some(62) by {
      assert "62"[..1] == "6" && "6"[..0] == "";
    }
    assert ParseInt("-3") == Some(-3) by {
      assert "-3"[1..] == "3" && "3"[..0] == "";
    }
    assert !IsDigit("C"[0]);
  }

  /** `IntType.__op__(x, other)` for `+ - * // % **`: with a plain int the result is the same
      concrete type wrapping `x.value op other`; with any scalar, even one of x's own type,
      the operation is not defined. */
  function BaseBinary(op: Op, x: Scalar, other: Operand): (r: Result<Scalar, Error>)
    ensures other.Val? ==> r == Err(OperationNotDefined(op, x.kind, other.x.kind))
    ensures other.Int? ==> (r.Err? <==> Apply(op, x.value, other.n).None?)
    ensures other.Int? && r.Err? ==> r.error == ZeroDivision
    ensures r.Ok? ==> r.value.kind == x.kind
    ensures other.Int? && r.Ok? ==> r.value == Wrap(x.kind, Apply(op, x.value, other.n).value)
  {
    match other
    case Val(y) => Err(OperationNotDefined(op, x.kind, y.kind))
    case Int(k) =>
      match Apply(op, x.value, k)
      case None => Err(ZeroDivision)
      case Some(n) => Ok(Wrap(x.kind, n))
  }

  /** `IntType.__rop__(x, k)`, which Python calls for `k op x` with a plain int k: the same
      concrete type wrapping `k op x.value`. */
  function Reflected(op: Op, k: int, x: Scalar): (r: Result<Scalar, Error>)
    ensures r.Err? <==> Apply(op, k, x.value).None?
    ensures r.Err? ==> r.error == ZeroDivision
    ensures r.Ok? ==> r.value == Wrap(x.kind, Apply(op, k, x.value).value)
  {
    match Apply(op, k, x.value)
    case None => Err(ZeroDivision)
    case Some(n) => Ok(Wrap(x.kind, n))
  }

  /** `divmod(x, other)`: with a plain int k, the unwrapped pair (value // k, value % k). */
  function DivMod(x: Scalar, other: Operand): (r: Result<(int, int), Error>)
    ensures other.Val? ==> r == Err(DivModNotDefined(x.kind, other.x.kind))
    ensures other.Int? ==> (r.Err? <==> other.n == 0)
    ensures other.Int? && r.Err? ==> r.error == ZeroDivision
    ensures r.Ok? ==> other.n * r.value.0 + r.value.1 == x.value
    ensures r.Ok? && other.n > 0 ==> 0 <= r.value.1 < other.n
    ensures r.Ok? && other.n < 0 ==> other.n < r.value.1 <= 0
  {
    match other
    case Val(y) => Err(DivModNotDefined(x.kind, y.kind))
    case Int(k) => if k == 0 then Err(ZeroDivision) else Ok((IntFloorDiv(x.value, k), IntMod(x.value, k)))
  }

  /** `divmod(k, x)` for a plain int k: the unwrapped pair (k // value, k % value). */
  function RDivMod(k: int, x: Scalar): (r: Result<(int, int), Error>)
    ensures r.Err? <==> x.value == 0
    ensures r.Err? ==> r.error == ZeroDivision
    ensures r.Ok? ==> x.value * r.value.0 + r.value.1 == k
    ensures r.Ok? && x.value > 0 ==> 0 <= r.value.1 < x.value
    ensures r.Ok? && x.value < 0 ==> x.value < r.value.1 <= 0
  {
    if x.value == 0 then Err(ZeroDivision) else Ok((IntFloorDiv(k, x.value), IntMod(k, x.value)))
  }

  /** `IntType.__neg__`, which `SemitonesScalar` and `FifthsScalar` keep: always raises. */
  function BaseNegate(x: Scalar): (r: Result<Scalar, Error>)
    ensures r == Err(NegationNotDefined(x.kind))
  {
    Err(NegationNotDefined(x.kind))
  }

  /** A comparison between two ints. */
  function IntCompare(cmp: Cmp, a: int, b: int): bool {
    match cmp
    case Eq => a == b
    case Ne => a != b
    case Lt => a < b
    case Le => a <= b
    case Gt => a > b
    case Ge => a >= b
  }

  /** The integer the other operand contributes to a comparison. */
  function OperandValue(other: Operand): int {
    match other
    case Int(n) => n
    case Val(y) => y.value
  }

  /** `== < <= > >=` (and `!=` as evidently intended): a plain int and a scalar of the same
      concrete type are compared by stored value; a scalar of any other type raises, and is
      never merely unequal. */
  function Compare(cmp: Cmp, x: Scalar, other: Operand): (r: Result<bool, Error>)
    ensures r.Err? <==> other.Val? && other.x.kind != x.kind
    ensures r.Err? ==> r.error == ComparisonNotDefined(cmp, x.kind, other.x.kind)
    ensures r.Ok? ==> r.value == IntCompare(cmp, x.value, OperandValue(other))
  {
    if other.Val? && other.x.kind != x.kind then
      Err(ComparisonNotDefined(cmp, x.kind, other.x.kind))
    else
      Ok(IntCompare(cmp, x.value, OperandValue(other)))
  }

  /** `x != other` as written: `IntType` defines `__eq__` but not `__ne__`, so Python finds
      `int.__ne__`, which compares the two integers without looking at the types. */
  function NotEqualAsWritten(x: Scalar, other: Operand): (r: bool)
    ensures r <==> x.value != OperandValue(other)
  {
    x.value != OperandValue(other)
  }

  /** Within one concrete type, `==` is identity of values: two scalars of the same type are
      equal exactly when they are the same value. */
  lemma EqualityIsIdentity(x: Scalar, y: Scalar)
    requires x.kind == y.kind
    ensures Compare(Eq, x, Val(y)) == Ok(x == y)
  {
  }

  /** On one concrete type the comparisons are those of a total order, and `!=` negates `==`. */
  lemma ComparisonsOrderValues(x: Scalar, y: Scalar)
    requires x.kind == y.kind
    ensures Compare(Lt, x, Val(y)).value || Compare(Eq, x, Val(y)).value || Compare(Gt, x, Val(y)).value
    ensures Compare(Lt, x, Val(y)) == Compare(Gt, y, Val(x))
    ensures Compare(Le, x, Val(y)).value == !Compare(Gt, x, Val(y)).value
    ensures Compare(Ge, x, Val(y)).value == !Compare(Lt, x, Val(y)).value
    ensures Compare(Ne, x, Val(y)).value == !Compare(Eq, x, Val(y)).value
  {
  }

  /** The corrected `!=` raises exactly when `==` does and otherwise negates it. */
  lemma NotEqualNegatesEqual(x: Scalar, other: Operand)
    ensures Compare(Ne, x, other).Err? == Compare(Eq, x, other).Err?
    ensures Compare(Ne, x, other).Ok? ==> Compare(Ne, x, other).value == !Compare(Eq, x, other).value
  {
  }

  /** As written, `!=` between a semitone scalar 1 and a fifths scalar 1 answers False, while
      `==` between the same two raises. */
  lemma NotEqualAsWrittenMixesTypes()
    ensures var x, y := Wrap(SemitonesScalar, 1), Wrap(FifthsScalar, 1);
      Compare(Eq, x, Val(y)) == Err(ComparisonNotDefined(Eq, SemitonesScalar, FifthsScalar)) &&
      !NotEqualAsWritten(x, Val(y))
  {
  }

  /** A semitone scalar stores its integer mod 12, so 11 + 3 stores 2 and -1 stores 11;
      a fifths scalar stores it unchanged. */
  lemma WrapExamples()
    ensures Wrap(SemitonesScalar, 11 + 3).value == 2
    ensures Wrap(SemitonesScalar, -1).value == 11
    ensures Wrap(FifthsScalar, -15).value == -15
  {
  }

  /** Adding a plain int k and then subtracting it gives back the scalar, in both domains. */
  lemma AddThenSubtractInt(x: Scalar, k: int)
    ensures BaseBinary(Add, x, Int(k)).Ok?
    ensures BaseBinary(Sub, BaseBinary(Add, x, Int(k)).value, Int(k)) == Ok(x)
  {
    var y := BaseBinary(Add, x, Int(k)).value;
    if x.kind.domain == Semitones {
      assert y.value == (x.value + k) % 12;
      assert (y.value - k) % 12 == x.value;
    }
  }

  /** `k + x` is `x + k`, and `k - x` is the opposite of `x - k` (mod 12 for semitones). */
  lemma ReflectedWithInt(x: Scalar, k: int)
    ensures Reflected(Add, k, x) == BaseBinary(Add, x, Int(k))
    ensures Reflected(Sub, k, x).Ok? && BaseBinary(Sub, x, Int(k)).Ok?
    ensures var a, b := Reflected(Sub, k, x).value.value, BaseBinary(Sub, x, Int(k)).value.value;
      if x.kind.domain == Fifths then a == -b else (a + b) % 12 == 0
  {
    var a, b := Reflected(Sub, k, x).value.value, BaseBinary(Sub, x, Int(k)).value.value;
    if x.kind.domain == Semitones {
      assert a == (k - x.value) % 12 && b == (x.value - k) % 12;
      assert (a + b) % 12 == ((k - x.value) + (x.value - k)) % 12;
    }
  }

  /** On a fifths scalar, `x // k` and `x % k` store the two halves of `divmod(x, k)`, which
      rebuild the stored value. */
  lemma FloorDivAndModRebuild(x: Scalar, k: int)
    requires x.kind.domain == Fifths && k != 0
    ensures BaseBinary(FloorDiv, x, Int(k)).Ok? && BaseBinary(Mod, x, Int(k)).Ok?
    ensures DivMod(x, Int(k)) == Ok((BaseBinary(FloorDiv, x, Int(k)).value.value, BaseBinary(Mod, x, Int(k)).value.value))
    ensures k * BaseBinary(FloorDiv, x, Int(k)).value.value + BaseBinary(Mod, x, Int(k)).value.value == x.value
  {
  }

  /** A semitone scalar has no fifths, so a `FifthsScalar` cannot be built from it; a
      semitone scalar built from a fifths scalar takes its semitones. */
  lemma NoFifthsFromSemitones(x: Scalar)
    ensures x.kind.domain == Semitones ==> FifthsOf(x) == None
    ensures x.kind.domain == Semitones ==> BaseConvertInit(Fifths, FromScalar(x)) == Err(FifthsUnavailable)
    ensures BaseConvertInit(Semitones, FromScalar(x)) == Ok(SemitonesOf(x))
  {
  }
}
