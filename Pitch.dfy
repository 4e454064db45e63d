/** The four pitch types: enharmonic (semitone) and specific (line-of-fifths) pitch classes and
    interval classes, their constructors, their `+`, `-` and unary `-` tables, and their names
    and display strings. */
module Pitch {
  import opened Results
  import opened PyInt
  import opened PitchHelpers
  import opened Abstract

  const EPC: Kind := Kind(Semitones, PitchClass)
  const EIC: Kind := Kind(Semitones, IntervalClass)
  const SPC: Kind := Kind(Fifths, PitchClass)
  const SIC: Kind := Kind(Fifths, IntervalClass)

  // ----- construction -----

  /** `convert_init_value` of the concrete class, as evidently intended: `SpecificPitchClass`
      and `SpecificIntervalClass` decode a string with the name codec and otherwise behave as
      `FifthsScalar` (which their TODO comments say they should be merged into); every other
      class uses its base class's rule. */
  function ConvertInit(kind: Kind, init: Init): (r: Result<int, Error>)
    ensures kind.domain == Semitones && r.Ok? ==> 0 <= r.value < 12
    ensures (kind == SPC || kind == SIC) && init.FromStr? ==>
      r == match (if kind == SPC then NoteNameToFifths(init.s) else IntervalNameToFifths(init.s))
           case Ok(f) => Ok(f)
           case Err(e) => Err(BadName(e))
    ensures !((kind == SPC || kind == SIC) && init.FromStr?) ==> r == BaseConvertInit(kind.domain, init)
  {
    if (kind == SPC || kind == SIC) && init.FromStr? then
      var decoded := if kind == SPC then NoteNameToFifths(init.s) else IntervalNameToFifths(init.s);
      match decoded
      case Ok(f) => Ok(f)
      case Err(e) => Err(BadName(e))
    else
      BaseConvertInit(kind.domain, init)
  }

  /** `convert_init_value` of `SpecificPitchClass` / `SpecificIntervalClass` as written: any
      non-string goes through `int(value)`, which for a semitone scalar is its semitone count. */
  function ConvertInitAsWritten(kind: Kind, init: Init): (r: Result<int, Error>)
    ensures (kind == SPC || kind == SIC) && init.FromScalar? ==> r == Ok(init.x.value)
    ensures !((kind == SPC || kind == SIC) && init.FromScalar?) ==> r == ConvertInit(kind, init)
  {
    if (kind == SPC || kind == SIC) && init.FromScalar? then Ok(init.x.value) else ConvertInit(kind, init)
  }

  /** `cls(value)`: convert the argument, then store it. */
  function New(kind: Kind, init: Init): (r: Result<Scalar, Error>)
    ensures r.Ok? ==> r.value.kind == kind
    ensures r.Ok? <==> ConvertInit(kind, init).Ok?
    ensures r.Ok? ==> r.value.value == ConvertInit(kind, init).value
    ensures r.Err? ==> r.error == ConvertInit(kind, init).error
  {
    match ConvertInit(kind, init)
    case Ok(v) => Ok(IntType(kind, v))
    case Err(e) => Err(e)
  }

  /** `cls(value)` with the as-written conversion. */
  function NewAsWritten(kind: Kind, init: Init): (r: Result<Scalar, Error>)
    requires (kind == SPC || kind == SIC)
    ensures r.Ok? ==> r.value.kind == kind
    ensures r.Ok? <==> ConvertInitAsWritten(kind, init).Ok?
    ensures r.Ok? ==> r.value.value == ConvertInitAsWritten(kind, init).value
  {
    match ConvertInitAsWritten(kind, init)
    case Ok(v) => Ok(IntType(kind, v))
    case Err(e) => Err(e)
  }

  /** The arithmetic operators build their results as `cls(n)`: that is `Wrap`. */
  lemma NewFromInt(kind: Kind, n: int)
    ensures New(kind, FromInt(n)) == Ok(Wrap(kind, n))
  {
  }

  /** Building one scalar from another never changes the sounding pitch: the semitones are
      kept, and a fifths type refuses a semitone scalar, whose spelling is unknown. */
  lemma NewFromScalarKeepsSemitones(kind: Kind, y: Scalar)
    ensures New(kind, FromScalar(y)).Err? <==> kind.domain == Fifths && y.kind.domain == Semitones
    ensures New(kind, FromScalar(y)).Err? ==> New(kind, FromScalar(y)).error == FifthsUnavailable
    ensures New(kind, FromScalar(y)).Ok? ==> SemitonesOf(New(kind, FromScalar(y)).value) == SemitonesOf(y)
  {
  }

  /** As written, `SpecificPitchClass(EnharmonicPitchClass(1))` (C sharp) stores fifths 1 (G),
      whose semitones are 7. */
  lemma NewAsWrittenReinterpretsSemitones()
    ensures var csharp := Wrap(EPC, 1);
      NewAsWritten(SPC, FromScalar(csharp)) == Ok(Wrap(SPC, 1)) &&
      SemitonesOf(Wrap(SPC, 1)) == 7 && SemitonesOf(csharp) == 1 &&
      New(SPC, FromScalar(csharp)) == Err(FifthsUnavailable)
  {
  }

  // ----- arithmetic -----

  /** `x + other`, following the `__add__` of x's class:
      EPC + any interval class, EIC + any pitch class -> EPC of the semitone sum;
      EIC + any interval class -> EIC; SPC + SIC -> SPC of the fifths sum; SPC + EIC -> EPC;
      SIC + SPC -> SPC; SIC + SIC -> SIC; SIC + EPC -> EPC; SIC + EIC -> EIC;
      everything else falls back to `IntType.__add__`. */
  function Plus(x: Scalar, other: Operand): (r: Result<Scalar, Error>)
    ensures other.Int? ==> r == BaseBinary(Add, x, other)
  {
    if other.Int? then BaseBinary(Add, x, other)
    else
      var y := other.x;
      if x.kind == EPC && y.kind.category == IntervalClass then
        Ok(Wrap(EPC, SemitonesOf(x) + SemitonesOf(y)))
      else if x.kind == EIC && y.kind.category == PitchClass then
        Ok(Wrap(EPC, SemitonesOf(x) + SemitonesOf(y)))
      else if x.kind == EIC && y.kind.category == IntervalClass then
        Ok(Wrap(EIC, SemitonesOf(x) + SemitonesOf(y)))
      else if x.kind == SPC && y.kind == SIC then
        Ok(Wrap(SPC, x.value + y.value))
      else if x.kind == SPC && y.kind == EIC then
        Ok(Wrap(EPC, SemitonesOf(x) + SemitonesOf(y)))
      else if x.kind == SIC && y.kind == SPC then
        Ok(Wrap(SPC, x.value + y.value))
      else if x.kind == SIC && y.kind == SIC then
        Ok(Wrap(SIC, x.value + y.value))
      else if x.kind == SIC && y.kind == EPC then
        Ok(Wrap(EPC, SemitonesOf(x) + SemitonesOf(y)))
      else if x.kind == SIC && y.kind == EIC then
        Ok(Wrap(EIC, SemitonesOf(x) + SemitonesOf(y)))
      else
        BaseBinary(Add, x, other)
  }

  /** `x - other`, following the `__sub__` of x's class:
      EPC - any interval class -> EPC; EIC - any interval class -> EIC;
      SPC - SIC -> SPC of the fifths difference; SPC - EIC -> EPC;
      SIC - SIC -> SIC; SIC - EIC -> EIC; everything else falls back to `IntType.__sub__`. */
  function Minus(x: Scalar, other: Operand): (r: Result<Scalar, Error>)
    ensures other.Int? ==> r == BaseBinary(Sub, x, other)
  {
    if other.Int? then BaseBinary(Sub, x, other)
    else
      var y := other.x;
      if x.kind == EPC && y.kind.category == IntervalClass then
        Ok(Wrap(EPC, SemitonesOf(x) - SemitonesOf(y)))
      else if x.kind == EIC && y.kind.category == IntervalClass then
        Ok(Wrap(EIC, SemitonesOf(x) - SemitonesOf(y)))
      else if x.kind == SPC && y.kind == SIC then
        Ok(Wrap(SPC, x.value - y.value))
      else if x.kind == SPC && y.kind == EIC then
        Ok(Wrap(EPC, SemitonesOf(x) - SemitonesOf(y)))
      else if x.kind == SIC && y.kind == SIC then
        Ok(Wrap(SIC, x.value - y.value))
      else if x.kind == SIC && y.kind == EIC then
        Ok(Wrap(EIC, SemitonesOf(x) - SemitonesOf(y)))
      else
        BaseBinary(Sub, x, other)
  }

  /** `x op other` for every binary operator: only `+` and `-` are overridden. */
  function Binary(op: Op, x: Scalar, other: Operand): (r: Result<Scalar, Error>)
    ensures op !in {Add, Sub} ==> r == BaseBinary(op, x, other)
    ensures other.Int? ==> r == BaseBinary(op, x, other)
  {
    match op
    case Add => Plus(x, other)
    case Sub => Minus(x, other)
    case _ => BaseBinary(op, x, other)
  }

  /** Unary `-`: an interval class is inverted (mod 12 for EIC, exactly for SIC); every other
      class keeps `IntType.__neg__`, which raises. */
  function Negate(x: Scalar): (r: Result<Scalar, Error>)
    ensures r.Ok? <==> x.kind in {EIC, SIC}
    ensures r.Ok? ==> r.value.kind == x.kind
    ensures r.Err? ==> r == BaseNegate(x)
  {
    if x.kind == EIC then Ok(Wrap(EIC, -SemitonesOf(x)))
    else if x.kind == SIC then Ok(Wrap(SIC, -x.value))
    else BaseNegate(x)
  }

  // ----- the rule behind the tables -----

  /** The class of `a + b` for two pitch types: defined unless both are pitch classes (or one
      is a plain scalar); a pitch class absorbs an interval class, and the result is specific
      only when both operands are. */
  function SumKind(a: Kind, b: Kind): Option<Kind> {
    if a.category == Plain || b.category == Plain || (a.category == PitchClass && b.category == PitchClass) then
      None
    else
      Some(Kind(if a.domain == Fifths && b.domain == Fifths then Fifths else Semitones,
                if a.category == PitchClass || b.category == PitchClass then PitchClass else IntervalClass))
  }

  /** The class of `a - b`: defined when a is a pitch type and b an interval class; the
      result keeps a's category, and is specific only when both operands are. */
  function DifferenceKind(a: Kind, b: Kind): Option<Kind> {
    if a.category == Plain || b.category != IntervalClass then
      None
    else
      Some(Kind(if a.domain == Fifths && b.domain == Fifths then Fifths else Semitones, a.category))
  }

  /** Combining two values in a result class: exact fifths arithmetic for a specific result,
      semitone arithmetic otherwise. */
  function Combine(kind: Kind, x: Scalar, y: Scalar, subtract: bool): Scalar {
    if kind.domain == Fifths then Wrap(kind, if subtract then x.value - y.value else x.value + y.value)
    else Wrap(kind, if subtract then SemitonesOf(x) - SemitonesOf(y) else SemitonesOf(x) + SemitonesOf(y))
  }

  /** The `__add__` tables of the four classes are exactly this rule: the sum is defined
      precisely when `SumKind` is, and then combines the values in that class. */
  lemma PlusFollowsRule(x: Scalar, y: Scalar)
    ensures Plus(x, Val(y)) ==
      match SumKind(x.kind, y.kind)
      case None => Err(OperationNotDefined(Add, x.kind, y.kind))
      case Some(k) => Ok(Combine(k, x, y, false))
  {
  }

  /** The `__sub__` tables of the four classes are exactly this rule. */
  lemma MinusFollowsRule(x: Scalar, y: Scalar)
    ensures Minus(x, Val(y)) ==
      match DifferenceKind(x.kind, y.kind)
      case None => Err(OperationNotDefined(Sub, x.kind, y.kind))
      case Some(k) => Ok(Combine(k, x, y, true))
  {
  }

  /** Every defined sum of two scalars is commutative in value and class, and a sum is
      defined in one order exactly when it is defined in the other. */
  lemma PlusCommutes(x: Scalar, y: Scalar)
    ensures Plus(x, Val(y)).Ok? == Plus(y, Val(x)).Ok?
    ensures Plus(x, Val(y)).Ok? ==> Plus(x, Val(y)) == Plus(y, Val(x))
  {
    PlusFollowsRule(x, y);
    PlusFollowsRule(y, x);
  }

  /** Two pitch classes never add, and nothing subtracts a pitch class. */
  lemma PitchClassesDoNotCombine(x: Scalar, y: Scalar)
    requires y.kind.category == PitchClass
    ensures x.kind.category == PitchClass ==> Plus(x, Val(y)) == Err(OperationNotDefined(Add, x.kind, y.kind))
    ensures Minus(x, Val(y)) == Err(OperationNotDefined(Sub, x.kind, y.kind))
  {
    PlusFollowsRule(x, y);
    MinusFollowsRule(x, y);
  }

  /** The semitones of a fifths sum or difference are the sum or difference of the semitones. */
  lemma FifthsSemitones(f: int, g: int)
    ensures 7 * (f + g) % 12 == (7 * f % 12 + 7 * g % 12) % 12
    ensures 7 * (f - g) % 12 == (7 * f % 12 - 7 * g % 12) % 12
  {
    var qf, rf := 7 * f / 12, 7 * f % 12;
    var qg, rg := 7 * g / 12, 7 * g % 12;
    assert 7 * (f + g) == 12 * (qf + qg) + (rf + rg);
    assert 7 * (f - g) == 12 * (qf - qg) + (rf - rg);
    ShiftByTwelve(qf + qg, rf + rg);
    ShiftByTwelve(qf - qg, rf - rg);
  }

  lemma ShiftByTwelve(q: int, r: int)
    ensures (12 * q + r) % 12 == r % 12
  {
  }

  /** Every sum, exact or lossy, sounds right: its semitones are the sum of the operands'
      semitones mod 12. */
  lemma PlusKeepsSemitones(x: Scalar, y: Scalar)
    requires Plus(x, Val(y)).Ok?
    ensures SemitonesOf(Plus(x, Val(y)).value) == (SemitonesOf(x) + SemitonesOf(y)) % 12
  {
    PlusFollowsRule(x, y);
    if x.kind.domain == Fifths && y.kind.domain == Fifths {
      FifthsSemitones(x.value, y.value);
    }
  }

  /** Every difference sounds right in the same way. */
  lemma MinusKeepsSemitones(x: Scalar, y: Scalar)
    requires Minus(x, Val(y)).Ok?
    ensures SemitonesOf(Minus(x, Val(y)).value) == (SemitonesOf(x) - SemitonesOf(y)) % 12
  {
    MinusFollowsRule(x, y);
    if x.kind.domain == Fifths && y.kind.domain == Fifths {
      FifthsSemitones(x.value, y.value);
    }
  }

  /** Adding an interval class and subtracting it again gives back the original whenever the
      sum stays in the original's class: (p + i) - i == p for a pitch class and an interval
      class of the same domain, and likewise for two interval classes. */
  lemma PlusThenMinus(x: Scalar, y: Scalar)
    requires y.kind.category == IntervalClass
    requires Plus(x, Val(y)).Ok? && Plus(x, Val(y)).value.kind == x.kind
    ensures Minus(Plus(x, Val(y)).value, Val(y)) == Ok(x)
  {
    PlusFollowsRule(x, y);
    var z := Plus(x, Val(y)).value;
    MinusFollowsRule(z, y);
    if x.kind.domain == Semitones {
      assert z.value == (SemitonesOf(x) + SemitonesOf(y)) % 12;
      assert (z.value - SemitonesOf(y)) % 12 == x.value;
    }
  }

  /** Subtracting an interval class and adding it again gives back the original under the
      same condition. */
  lemma MinusThenPlus(x: Scalar, y: Scalar)
    requires y.kind.category == IntervalClass
    requires Minus(x, Val(y)).Ok? && Minus(x, Val(y)).value.kind == x.kind
    ensures Plus(Minus(x, Val(y)).value, Val(y)) == Ok(x)
  {
    MinusFollowsRule(x, y);
    var z := Minus(x, Val(y)).value;
    PlusFollowsRule(z, y);
    if x.kind.domain == Semitones {
      assert z.value == (SemitonesOf(x) - SemitonesOf(y)) % 12;
      assert (z.value + SemitonesOf(y)) % 12 == x.value;
    }
  }

  /** Negating an interval class twice gives it back, and an interval class plus its
      negation is the unison (0). */
  lemma NegateIsInverse(x: Scalar)
    requires x.kind in {EIC, SIC}
    ensures Negate(x).Ok? && Negate(Negate(x).value) == Ok(x)
    ensures Plus(x, Val(Negate(x).value)) == Ok(Wrap(x.kind, 0))
  {
    var n := Negate(x).value;
    if x.kind == EIC {
      assert n.value == (-x.value) % 12;
      assert (-n.value) % 12 == x.value;
      assert (x.value + n.value) % 12 == 0;
    }
  }

  lemma ArithmeticExamples()
    ensures Negate(Wrap(EIC, 5)) == Ok(Wrap(EIC, 7))
    ensures Negate(Wrap(SIC, 3)) == Ok(Wrap(SIC, -3))
    ensures Negate(Wrap(EPC, 5)).Err? && Negate(Wrap(SPC, 5)).Err?
    ensures Plus(Wrap(EPC, 11), Int(3)) == Ok(Wrap(EPC, 2))
    ensures Plus(Wrap(SIC, 1), Val(Wrap(EIC, 4))) == Ok(Wrap(EIC, 11))
    ensures Plus(Wrap(EPC, 0), Val(Wrap(SPC, 0))) == Err(OperationNotDefined(Add, EPC, SPC))
    ensures Compare(Eq, Wrap(EPC, 4), Val(Wrap(EPC, 16))) == Ok(true)
    ensures Compare(Eq, Wrap(EPC, 4), Val(Wrap(SPC, 4))) == Err(ComparisonNotDefined(Eq, EPC, SPC))
  {
  }

  // ----- names and display -----

  /** The `name` property: the note name of an SPC, the interval name of an SIC, and
      `str(value)` for every other class. */
  function Name(x: Scalar): (s: string)
    ensures x.kind == SPC ==> SplitNoteName(s).Ok?
    ensures x.kind == SIC ==> IntervalNameToFifths(s).Ok?
  {
    if x.kind == SPC then FifthsToNoteName(x.value)
    else if x.kind == SIC then
      IntervalNameRoundTrip(x.value);
      FifthsToIntervalName(x.value)
    else IntToDecimal(x.value)
  }

  /** The name of a class, or the alias `__str__` writes for the pitch types: a plain
      identifier that refers back to the class. */
  function CallName(kind: Kind): (n: string)
    ensures forall j :: 0 <= j < |n| ==> n[j] != '('
    ensures KindCalled(n) == Some(kind)
  {
    match kind
    case Kind(Semitones, PitchClass) => "EPC"
    case Kind(Semitones, IntervalClass) => "EIC"
    case Kind(Fifths, PitchClass) => "SPC"
    case Kind(Fifths, IntervalClass) => "SIC"
    case Kind(Semitones, Plain) => "SemitonesScalar"
    case Kind(Fifths, Plain) => "FifthsScalar"
  }

  /** The classes whose `str` quotes the name and whose `repr` is the bare name: the fifths
      classes, which override `IntType`'s display (`FifthsScalar`, and SPC and SIC after it). */
  predicate QuotesName(kind: Kind) {
    kind.domain == Fifths
  }

  /** `str(x)`: a constructor call that rebuilds x; the fifths classes quote their name. */
  function Str(x: Scalar): (s: string)
    ensures |s| > |CallName(x.kind)| + 1 && s[|s| - 1] == ')'
    ensures s[..|CallName(x.kind)| + 1] == CallName(x.kind) + "("
    ensures s[|CallName(x.kind)| + 1] == '\'' <==> QuotesName(x.kind)
  {
    var arg := if QuotesName(x.kind) then "'" + Name(x) + "'" else Name(x);
    assert arg[0] == '\'' <==> QuotesName(x.kind) by {
      if !QuotesName(x.kind) {
        DecimalStart(x.value);
      }
    }
    CallText(CallName(x.kind), arg);
    CallName(x.kind) + "(" + arg + ")"
  }

  /** `str(n)` starts with a minus sign or a digit, and so never with a quote. */
  lemma DecimalStart(n: int)
    ensures IntToDecimal(n)[0] == '-' || IsDigit(IntToDecimal(n)[0])
  {
  }

  /** The text of a call `c(arg)`: the name and the parenthesis, then the argument. */
  lemma CallText(c: string, arg: string)
    requires |arg| >= 1
    ensures (c + "(" + arg + ")")[..|c| + 1] == c + "("
    ensures (c + "(" + arg + ")")[|c| + 1] == arg[0]
  {
  }

  /** `repr(x)`: the bare name for the fifths classes, the same as `str` for the others. */
  function Repr(x: Scalar): (s: string)
    ensures !QuotesName(x.kind) ==> s == Str(x)
  {
    if QuotesName(x.kind) then Name(x) else Str(x)
  }

  /** The class a call name refers to. */
  function KindCalled(name: string): Option<Kind> {
    if name == "EPC" then Some(EPC)
    else if name == "EIC" then Some(EIC)
    else if name == "SPC" then Some(SPC)
    else if name == "SIC" then Some(SIC)
    else if name == "SemitonesScalar" then Some(SemitonesScalar)
    else if name == "FifthsScalar" then Some(FifthsScalar)
    else None
  }

  /** Index of the first '(' in s, or |s|. */
  function ParenIndex(s: string): (i: nat)
    ensures i <= |s|
    ensures i < |s| ==> s[i] == '('
    ensures forall j :: 0 <= j < i ==> s[j] != '('
  {
    if |s| == 0 || s[0] == '(' then 0 else 1 + ParenIndex(s[1..])
  }

  lemma {:induction false} ParenIndexAppend(name: string, rest: string)
    requires forall j :: 0 <= j < |name| ==> name[j] != '('
    requires |rest| >= 1 && rest[0] == '('
    ensures ParenIndex(name + rest) == |name|
  {
    if |name| > 0 {
      assert (name + rest)[1..] == name[1..] + rest;
      ParenIndexAppend(name[1..], rest);
    }
  }

  /** The constructor argument a literal denotes: a quoted string or an int literal. */
  function Literal(arg: string): Option<Init> {
    if |arg| >= 2 && arg[0] == '\'' && arg[|arg| - 1] == '\'' then Some(FromStr(arg[1..|arg| - 1]))
    else if ParseInt(arg).Some? then Some(FromInt(ParseInt(arg).value))
    else None
  }

  /** Calling the class called `name` on the literal `arg`. */
  function Call(name: string, arg: string): Option<Scalar> {
    match (KindCalled(name), Literal(arg))
    case (Some(k), Some(a)) => (match New(k, a) case Ok(x) => Some(x) case Err(_) => None)
    case _ => None
  }

  /** What evaluating a displayed constructor call `Name(arg)` gives; `None` when the text is
      not such a call or the call raises. */
  function EvalCall(s: string): Option<Scalar> {
    var i := ParenIndex(s);
    if i + 2 > |s| || s[|s| - 1] != ')' then None
    else Call(s[..i], s[i + 1..|s| - 1])
  }

  /** A call text splits at its first parenthesis. */
  lemma EvalCallSplits(name: string, arg: string)
    requires forall j :: 0 <= j < |name| ==> name[j] != '('
    ensures EvalCall(name + "(" + arg + ")") == Call(name, arg)
  {
    var s := name + "(" + arg + ")";
    ParenIndexAppend(name, "(" + arg + ")");
    assert s == name + ("(" + arg + ")");
    assert s[..|name|] == name;
    assert s[|name| + 1..|s| - 1] == arg;
  }

  /** "String representation should work as a constructor": the name of x, given back to
      x's constructor as a string, rebuilds x; for SPC this is the note-name round trip and
      for SIC the interval-name round trip. */
  lemma NameRoundTrip(x: Scalar)
    ensures New(x.kind, FromStr(Name(x))) == Ok(x)
  {
    if x.kind == SPC {
      NoteNameRoundTrip(x.value);
    } else if x.kind == SIC {
      IntervalNameRoundTrip(x.value);
    } else {
      ParseShowRoundTrip(x.value);
    }
  }

  /** The short display of a fifths class is its name, which rebuilds it. */
  lemma ReprRoundTrip(x: Scalar)
    requires QuotesName(x.kind)
    ensures New(x.kind, FromStr(Repr(x))) == Ok(x)
  {
    NameRoundTrip(x);
  }


  /** A fifths class displays as `Name('name')`, and the quoted name rebuilds it. */
  lemma QuotedStrRoundTrip(x: Scalar)
    requires QuotesName(x.kind)
    ensures EvalCall(Str(x)) == Some(x)
  {
    var c, name := CallName(x.kind), Name(x);
    var arg := "'" + name + "'";
    assert Str(x) == c + "(" + arg + ")";
    EvalCallSplits(c, arg);
    assert arg[1..|arg| - 1] == name;
    assert Literal(arg) == Some(FromStr(name));
    NameRoundTrip(x);
  }

  /** A semitone class displays as `Name(value)`, and the int literal rebuilds it. */
  lemma LiteralStrRoundTrip(x: Scalar)
    requires !QuotesName(x.kind)
    ensures EvalCall(Str(x)) == Some(x)
  {
    var c, name := CallName(x.kind), Name(x);
    assert name == IntToDecimal(x.value);
    assert Str(x) == c + "(" + name + ")";
    EvalCallSplits(c, name);
    ParseShowRoundTrip(x.value);
    assert name[0] != '\'';
    assert Literal(name) == Some(FromInt(x.value));
    NewFromInt(x.kind, x.value);
  }

  /** Evaluating `str(x)` as a constructor call rebuilds x, for every class. */
  lemma StrRoundTrip(x: Scalar)
    ensures EvalCall(Str(x)) == Some(x)
  {
    if QuotesName(x.kind) {
      QuotedStrRoundTrip(x);
    } else {
      LiteralStrRoundTrip(x);
    }
  }

  /** SPC(-4) is named Ab, and the name Ab builds it. */
  lemma SpecificNameExamples()
    ensures Name(Wrap(SPC, -4)) == "Ab" && New(SPC, FromStr("Ab")) == Ok(Wrap(SPC, -4))
  {
    NameRoundTrip(Wrap(SPC, -4));
  }

  /** SPC(-4) displays as SPC('Ab') and, for short, Ab. */
  lemma DisplayExamples()
    ensures Str(Wrap(SPC, -4)) == "SPC('Ab')" && Repr(Wrap(SPC, -4)) == "Ab"
  {
    assert FifthsToNoteName(-4) == "Ab";
  }

  /** A plain fifths scalar quotes its number in `str` and shows it bare in `repr`, while a
      plain semitone scalar uses `IntType`'s display. */
  lemma PlainDisplayExample()
    ensures Str(Wrap(FifthsScalar, -3)) == "FifthsScalar('-3')"
    ensures Repr(Wrap(FifthsScalar, -3)) == "-3"
    ensures Str(Wrap(SemitonesScalar, 4)) == "SemitonesScalar(4)"
    ensures Repr(Wrap(SemitonesScalar, 4)) == "SemitonesScalar(4)"
  {
    assert IntToDecimal(-3) == "-3";
    assert IntToDecimal(4) == "4";
  }

  /** EIC(5) displays as EIC(5). */
  lemma EnharmonicDisplayExample()
    ensures Str(Wrap(EIC, 5)) == "EIC(5)"
  {
    assert IntToDecimal(5) == "5";
  }
}
