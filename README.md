# Pitch and interval types of `representing_harmony`

This project is a Dafny model of the integer-backed pitch types of `representing_harmony`,
together with proofs about them.

- **Scalar base classes.** `IntType`, `SemitonesScalar` and `FifthsScalar` behave like plain
  integers when the other operand is an `int`. They refuse any operation with another `IntType`
  unless the subclass defines it.
- **Pitch types.** There are four concrete classes:
  - `EnharmonicPitchClass` (EPC) and `EnharmonicIntervalClass` (EIC) store semitones modulo 12.
  - `SpecificPitchClass` (SPC) and `SpecificIntervalClass` (SIC) store an exact position on the
    line of fifths.
- **Name codec.** Note names (`"Ab"`) and interval names (`"m7"`) convert to and from fifths.

Modules, one file each:

- `Results`: `Option` and `Result`.
- `PyInt`: Python integer semantics used by the operators.
  - floor `//` and `%`;
  - `**`, including a negative exponent;
  - `int(str)` and `str(int)`.
- `PitchHelpers`: `pitch_helpers.py`.
- `Abstract`: `abstract.py`.
  - A value is `IntType(kind, value)`. The kind is a domain (semitones or fifths) paired with a
    category (plain scalar, pitch class or interval class).
  - `Scalar` is the subset whose semitone values lie in 0..11, which is what every constructor
    produces.
  - Raising an exception is a `Result.Err`.
- `Pitch`: `pitch.py`.
  - The `isinstance` chains of `__add__` and `__sub__`.
  - Negation.
  - `name`, `str` and `repr`.
  - The constructor `cls(value)`.

The source is pure apart from the constructor, which only builds a value. So everything is
modelled as functions and lemmas; there are no classes and no loops.

Two things are proved about `+` and `-`:

- The dispatch tables follow one algebraic rule, stated as `Pitch.SumKind` and
  `Pitch.DifferenceKind`:
  - a sum is defined unless both operands are pitch classes;
  - it is specific only when both operands are specific;
  - a difference needs an interval class on the right.
- Every result sounds right: its semitones are the sum or difference of the operands' semitones.

Points where the code does something a reader of its docstrings might not expect; the model
follows the code:

- EPC ± SIC is defined (`pitch.py:52`: any interval class), and SPC ± EIC gives an EPC
  (`pitch.py:116-117`, `123-124`).
- SIC ± EIC gives an EIC (`pitch.py:158-159`, `165-166`), not an enharmonic pitch class.
- A pitch type can be constructed from a scalar of another category. For example,
  `EPC(SIC(...))` works, because `SemitonesScalar` converts any `FifthsScalar` to its semitones.
  As written, SPC and SIC also accept a semitone scalar and keep its number as fifths, which is
  the second finding below. `Pitch.New`, which every other lemma uses, follows the corrected
  conversion: a fifths class refuses a semitone scalar, as `FifthsScalar` itself does.
- Every fifths class quotes its name in `str` and shows the bare name in `repr`:
  - `FifthsScalar` overrides `IntType`'s display (`abstract.py:328-333`), as in `FifthsScalar('-3')`
    and `-3`;
  - SPC and SIC do the same with their note and interval names (`pitch.py:107-111`, `145-149`).
  Only `SemitonesScalar` keeps `IntType.__str__` and `__repr__` (`abstract.py:39-45`), as in
  `SemitonesScalar(4)`; EPC and EIC write their semitones the same way (`pitch.py:45-49`, `66-70`).
- The name of an interval class survives a round trip only with a single numeral 1..7:
  - `P8` decodes to fifths 0, which is written back as `P1`;
  - `IntervalNameRoundTripFromName` is therefore stated for one numeral.
- The `_fifths2str` docstring (`pitch_helpers.py:91`) says the accidentals are appended by
  default and prepended with `inverted=True`. The code does the reverse (`pitch_helpers.py:95-97`):
  it appends them only when `inverted` holds. Note names are written with `inverted=True`
  (`pitch_helpers.py:109`), so they come out as letter then accidentals.

## Model

| member | source | states |
|---|---|---|
| PyInt.IntFloorDiv | abstract.py:71-76 | `//` is floor division: q·b ≤ a < q·b + b for a positive divisor, and the mirror image for a negative divisor |
| PyInt.IntMod | abstract.py:85-90 | `%` rebuilds the dividend with the floor quotient, and the remainder takes the divisor's sign |
| PyInt.PyPow | abstract.py:148-153 | `**` raises exactly for 0 to a negative power. A natural exponent gives the exact power; a negative exponent gives 1/bⁿ truncated toward zero |
| PyInt.Apply | abstract.py:50-90 | an int operation fails (ZeroDivisionError) exactly for `//` or `%` by 0 and for 0 to a negative power; `+` and `-` undo each other |
| PyInt.DivModRebuilds | abstract.py:92-97 | for a nonzero divisor, quotient times divisor plus remainder is the dividend |
| PyInt.PowerGrows | abstract.py:148-153 | a base of absolute value at least 2, raised to a positive power, has absolute value at least 2 |
| PyInt.TruncReciprocal | abstract.py:148-153 | the reciprocal of an integer of absolute value at least 2 truncates to 0 |
| PyInt.PowerOfMinusOne | abstract.py:148-153 | (−1)ⁿ is 1 for even n and −1 for odd n, so the reciprocal of a power of −1 is exact |
| PyInt.NatToDecimal | abstract.py:35-37 | `str(n)` of a natural is a nonempty digit string with no leading zero |
| PyInt.DecimalRoundTrip | abstract.py:35-37 | the digits written for n denote n |
| PyInt.IntToDecimal | abstract.py:35-37 | `str(n)` starts with '-' exactly for negative n |
| PyInt.ParseInt | abstract.py:24-26 | `int(s)` accepts exactly a nonempty digit string, or a sign followed by a nonempty digit string; the value is that of the digits, negated after a minus sign |
| PyInt.ParseIntExamples | abstract.py:24-26 | "-", "+", "", "5a" and "--5" raise; "+5", "-5" and "007" are 5, −5 and 7 |
| PyInt.ParseShowRoundTrip | abstract.py:24-37 | `int(str(n)) == n` for every integer |
| Abstract.SemitonesOf | abstract.py:281-321 | `semitones` is in 0..11; it is the stored value for a semitone scalar and 7·fifths mod 12 for a fifths scalar |
| Abstract.FifthsOf | abstract.py:286-289 | `fifths` exists exactly for fifths scalars and is their stored value |
| Abstract.Wrap | abstract.py:272-311 | `cls(n)` stores n mod 12, in 0..11, for a semitone class and n itself for a fifths class |
| Abstract.WrapExamples | abstract.py:279 | 14 and −1 are stored as 2 and 11; a fifths value is stored unchanged |
| Abstract.BaseConvertInit | abstract.py:272-311 | an int is stored mod 12 by a semitone class and unchanged by a fifths class. Text succeeds exactly when `int` accepts it and is then stored as that int would be. From another scalar, a semitone class stores its semitones; a fifths class stores its fifths, or fails for a semitone scalar |
| Abstract.BaseConvertInitExamples | abstract.py:272-311 | `SemitonesScalar("62")` stores 2, `SemitonesScalar(-1)` stores 11, `FifthsScalar("-3")` stores −3, and `FifthsScalar("C")` raises |
| Abstract.NoFifthsFromSemitones | abstract.py:286-311 | a semitone scalar has no fifths, so a fifths class cannot be built from it, while a semitone class always can |
| Abstract.BaseBinary | abstract.py:50-153 | any scalar on the right raises "operation not defined". With an int on the right, the result is the int result stored in the left operand's class; it fails exactly when the int operation does |
| Abstract.AddThenSubtractInt | abstract.py:50-62 | adding an int and subtracting it again gives back the scalar, modulo 12 included |
| Abstract.Reflected | abstract.py:99-160 | `k op x` with an int on the left is the int result stored in x's class, and fails exactly when the int operation does |
| Abstract.ReflectedWithInt | abstract.py:99-111 | `k + x` equals `x + k`; `k - x` is exactly the negation of `x - k` for a fifths class, and its negation modulo 12 for a semitone class |
| Abstract.DivMod | abstract.py:92-97 | `divmod(x, k)` returns plain ints that rebuild the stored value with a floor remainder, fails for 0, and refuses scalars |
| Abstract.RDivMod | abstract.py:141-146 | `divmod(k, x)` rebuilds k from x's stored value and fails exactly when that value is 0 |
| Abstract.FloorDivAndModRebuild | abstract.py:71-97 | on a fifths scalar, `x // k` and `x % k` store the two halves of `divmod(x, k)`, and together they rebuild x |
| Abstract.BaseNegate | abstract.py:47-48 | unary minus raises for every base scalar |
| Abstract.Compare | abstract.py:232-265 | a comparison raises exactly when the other operand is a scalar of another class; otherwise it compares the stored values |
| Abstract.EqualityIsIdentity | abstract.py:232-237 | two scalars of the same class are `==` exactly when they are the same value |
| Abstract.ComparisonsOrderValues | abstract.py:239-265 | within one class the comparisons form a total order: `<` mirrors `>`, `<=` is not `>`, `>=` is not `<` |
| Abstract.NotEqualNegatesEqual | abstract.py:232-237 | the corrected `!=` fails exactly when `==` fails, and otherwise is its negation |
| Abstract.NotEqualAsWritten | abstract.py:232-237 | as written, `!=` falls through to `int.__ne__` and compares stored values with no class check |
| Abstract.NotEqualAsWrittenMixesTypes | abstract.py:232-237 | as written, `SemitonesScalar(1) != FifthsScalar(1)` answers False, while `==` on the same pair raises |
| Pitch.ConvertInit | pitch.py:89-136 | SPC and SIC decode a string as a note or interval name and fail exactly when the codec does; every other case is the base conversion |
| Pitch.ConvertInitAsWritten | pitch.py:89-96 | as written, SPC and SIC store the stored value of any scalar argument |
| Pitch.New | abstract.py:28-33 | `cls(value)` succeeds exactly when the conversion does, and stores the converted value in that class |
| Pitch.NewAsWritten | pitch.py:89-136 | `SPC(value)` and `SIC(value)` with the as-written conversion |
| Pitch.NewFromInt | abstract.py:28-33 | constructing from an int is `Wrap` for every class |
| Pitch.NewFromScalarKeepsSemitones | abstract.py:272-311 | constructing from a scalar fails only for fifths from semitones, and otherwise keeps the sounding semitones |
| Pitch.NewAsWrittenReinterpretsSemitones | pitch.py:89-96 | as written, `SPC(EPC(1))` (C sharp) stores fifths 1 and so sounds as G |
| Pitch.Plus | pitch.py:51-160 | `x + k` with an int is the base rule of the left operand's class |
| Pitch.Minus | pitch.py:56-167 | `x - k` with an int is the base rule of the left operand's class |
| Pitch.Binary | abstract.py:64-153 | every operator except `+` and `-` is the base rule, and so is `+` or `-` with an int |
| Pitch.Negate | pitch.py:72-143 | unary minus is defined exactly for EIC and SIC, keeps the class, and raises otherwise |
| Pitch.PlusFollowsRule | pitch.py:51-160 | the four `__add__` chains are exactly the sum rule: the result class is given by `SumKind`, exact in fifths for a specific result and in semitones otherwise, else "not defined" |
| Pitch.MinusFollowsRule | pitch.py:56-167 | the four `__sub__` chains are exactly the difference rule given by `DifferenceKind` |
| Pitch.PlusCommutes | pitch.py:51-160 | a sum of two scalars is defined in one order exactly when it is in the other, with the same result |
| Pitch.PitchClassesDoNotCombine | pitch.py:51-125 | two pitch classes never add, and nothing subtracts a pitch class |
| Pitch.FifthsSemitones | abstract.py:318-321 | 7·f mod 12 maps sums and differences of fifths to sums and differences of semitones |
| Pitch.PlusKeepsSemitones | pitch.py:51-160 | every defined sum sounds as the sum of the operands' semitones mod 12 |
| Pitch.MinusKeepsSemitones | pitch.py:56-167 | every defined difference sounds as the difference of the semitones mod 12 |
| Pitch.PlusThenMinus | pitch.py:51-167 | adding an interval class and subtracting it again gives back the original whenever the sum stays in its class |
| Pitch.MinusThenPlus | pitch.py:51-167 | subtracting an interval class and adding it back gives back the original under the same condition |
| Pitch.NegateIsInverse | pitch.py:72-159 | negation of an interval class is an involution, and an interval class plus its negation is the unison of its class |
| Pitch.ArithmeticExamples | pitch.py:51-167 | −EIC(5) is EIC(7); −SIC(3) is SIC(−3); EPC(11)+3 is EPC(2); SIC(1)+EIC(4) is EIC(11); EPC+SPC raises; EPC(4) == EPC(16); EPC == SPC raises |
| Pitch.Name | pitch.py:103-140 | the name of an SPC is a valid note name and the name of an SIC a valid interval name |
| Pitch.NameRoundTrip | pitch.py:89-140 | `cls(x.name) == x` for every value of every class |
| Pitch.Str | pitch.py:45-146 | `str(x)` starts with the class's call name and `(` and ends with `)`; the argument is quoted exactly for the fifths classes (FifthsScalar, SPC, SIC) |
| Pitch.Repr | pitch.py:48-149 | `repr` equals `str` for the semitone classes (SemitonesScalar, EPC, EIC) |
| Pitch.ReprRoundTrip | pitch.py:107-149 | the bare `repr` of a fifths class (FifthsScalar, SPC or SIC) rebuilds it under its class |
| Pitch.CallName | pitch.py:170-173 | each display name (the aliases EPC, EIC, SPC, SIC, or the class name) contains no parenthesis and refers back to its class |
| Pitch.ParenIndex | abstract.py:39-41 | the index found is that of the first `(` in the text, or the text's length when there is none |
| Pitch.EvalCallSplits | abstract.py:39-41 | a displayed call splits at its first parenthesis into the class name and the argument |
| Pitch.QuotedStrRoundTrip | pitch.py:107-146 | `FifthsScalar('-3')`, `SPC('Ab')` and `SIC('m7')` evaluate back to the value they display |
| Pitch.LiteralStrRoundTrip | pitch.py:45-70 | `SemitonesScalar(4)`, `EPC(4)` and `EIC(5)` evaluate back to the value they display |
| Pitch.StrRoundTrip | abstract.py:39-41 | the string representation works as a constructor: evaluating `str(x)` gives x back, for every class |
| Pitch.SpecificNameExamples | pitch.py:89-105 | SPC(−4) is named "Ab", and "Ab" builds it |
| Pitch.DisplayExamples | pitch.py:107-111 | SPC(−4) displays as `SPC('Ab')`, and as `Ab` for short |
| Pitch.EnharmonicDisplayExample | pitch.py:66-67 | EIC(5) displays as `EIC(5)` |
| Pitch.PlainDisplayExample | abstract.py:328-333 | a plain fifths scalar −3 displays as `FifthsScalar('-3')` in `str` and `-3` in `repr`; a plain semitone scalar 4 displays as `SemitonesScalar(4)` in both |
| PitchHelpers.Repeat | pitch_helpers.py:94 | `n * c` has length n and consists only of c |
| PitchHelpers.CountBounds | pitch_helpers.py:29 | `Count`, the model of `s.count(c)`, is at most the length of s, and is 0 exactly when c does not occur in s |
| PitchHelpers.CountRepeat | pitch_helpers.py:28-29 | counting c in a run of d gives the run's length when c is d and 0 otherwise |
| PitchHelpers.SplitNoteName | pitch_helpers.py:15-30 | an accepted name is one letter A–G or a–g followed by only sharps or only flats, and splits into those two parts; anything else raises |
| PitchHelpers.SplitNoteNameAccepts | pitch_helpers.py:25-27 | every letter followed by a run of one accidental is accepted and split there |
| PitchHelpers.SplitNoteNameCount | pitch_helpers.py:28-30 | with `count=True`, the accidentals become the number of sharps, or minus the number of flats |
| PitchHelpers.UpperCase | pitch_helpers.py:42 | `Upper`, the model of `c.upper()`, maps a lower-case ASCII letter to its capital, leaves every other character alone, and is idempotent |
| PitchHelpers.LetterStep | pitch_helpers.py:40-108 | `StepFifths`, the `name_tpcs` table, agrees with the step list of `fifths2note_name`: each letter sits there at its position plus one, so every position is in −1..5 |
| PitchHelpers.NoteNameToFifths | pitch_helpers.py:33-43 | `note_name2fifths` raises exactly for non-note names |
| PitchHelpers.NoteNameCaseInsensitive | pitch_helpers.py:40-43 | a lower-case letter denotes the same fifths as the upper-case one |
| PitchHelpers.NoteStepIndex | pitch_helpers.py:40-108 | the step table of `fifths2note_name` lists each letter at its fifths position plus one |
| PitchHelpers.Accidentals | pitch_helpers.py:93-94 | the accidentals written are all sharps or all flats, and their signed count is ⌊k / 7⌋ |
| PitchHelpers.FifthsToStr | pitch_helpers.py:85-97 | `_fifths2str` puts the step for (fifths+1) mod 7 first when `inverted` holds, and the accidentals first otherwise |
| PitchHelpers.FifthsToNoteName | pitch_helpers.py:100-110 | `fifths2note_name` always writes a valid note name with an upper-case letter |
| PitchHelpers.AccidentalsRebuilt | pitch_helpers.py:93-94 | the position j + 7n (or j − 7n), with j in 0..6, gets exactly n sharps (or n flats) |
| PitchHelpers.NoteNameAt | pitch_helpers.py:93-110 | the note name written for position k − 1 is the step at k mod 7 followed by the accidentals for k |
| PitchHelpers.WrittenFromParts | pitch_helpers.py:85-110 | a natural letter moved by n sharps or n flats is written as that letter followed by those accidentals |
| PitchHelpers.NoteNameRoundTrip | pitch_helpers.py:33-110 | `note_name2fifths(fifths2note_name(f)) == f` for every integer f |
| PitchHelpers.NoteNameRoundTripFromName | pitch_helpers.py:33-110 | `fifths2note_name(note_name2fifths(n)) == n` for every note name with an upper-case letter |
| PitchHelpers.NoteNameExamples | pitch_helpers.py:33-43 | Ab and ab are both −4 |
| PitchHelpers.NoteNameWrittenExamples | pitch_helpers.py:100-110 | 0, −1, −2, 1, 7 and −4 are written C, F, Bb, G, C# and Ab |
| PitchHelpers.NoteNameRejectedExamples | pitch_helpers.py:24-26 | H, C#b and the empty name raise |
| PitchHelpers.QualityEnd | pitch_helpers.py:47-49 | the quality group ends at the first digit: no character before the split is a digit, and the character at it is one |
| PitchHelpers.QualityEndAppend | pitch_helpers.py:47-49 | a quality followed by digits splits at the first digit |
| PitchHelpers.BaseFifths | pitch_helpers.py:51-53 | the base fifths of a numeral lie in −1..5 |
| PitchHelpers.QualityFifths | pitch_helpers.py:54-82 | an accepted quality moves the numeral's base by a whole number of octaves on the line of fifths (a multiple of 7) |
| PitchHelpers.IntervalNameToFifths | pitch_helpers.py:46-82 | an accepted name is a quality (P, M, m, a+ or d+) followed by digits with a non-zero numeral; a name outside the grammar raises the grammar error, and exactly a conforming name with numeral 0 raises the zero error |
| PitchHelpers.UnknownQualityExamples | pitch_helpers.py:47-48 | A3, Pa5, MM3 and p5 do not match the interval-name grammar and raise |
| PitchHelpers.MissingPartExamples | pitch_helpers.py:47-48 | P (no numeral) and 5 (no quality) do not match the interval-name grammar and raise |
| PitchHelpers.IntervalNameParts | pitch_helpers.py:46-53 | a quality followed by digits is rejected for numeral 0, and otherwise decoded by the quality rule |
| PitchHelpers.SingleNumeral | pitch_helpers.py:46-53 | the same for a single digit: 0 is rejected, and any other digit is decoded by the quality rule |
| PitchHelpers.IntervalQualityFits | pitch_helpers.py:54-82 | P is accepted exactly for numerals 1, 4, 5 mod 7, and M and m exactly for the others; augmented and diminished are always accepted; each rejection raises its own error |
| PitchHelpers.IntervalQualityBands | pitch_helpers.py:54-82 | P lands in −1..1, M in 2..5 and m in −5..−2. A name with k a's lands above 5, where ⌊(f+1)/7⌋ = k; a name with k d's lands below −5, where ⌊(1−f)/7⌋ = k |
| PitchHelpers.CompoundIntervalsCollapse | pitch_helpers.py:51-53 | numerals n and n+7 decode to the same interval class |
| PitchHelpers.QualityOf | pitch_helpers.py:119-124 | the quality written for any fifths is a valid quality |
| PitchHelpers.FifthsToIntervalName | pitch_helpers.py:113-125 | `fifths2interval_name` writes a valid quality followed by a single numeral 1..7 |
| PitchHelpers.IntervalNumeralBase | pitch_helpers.py:117-118 | the numeral table of `fifths2interval_name` lists each numeral at its base fifths plus one |
| PitchHelpers.QualityOfDecodes | pitch_helpers.py:113-125 | the quality and numeral written for f decode back to f |
| PitchHelpers.IntervalNameRoundTrip | pitch_helpers.py:46-125 | `interval_name2fifths(fifths2interval_name(f)) == f` for every integer f |
| PitchHelpers.IntervalNumeralIndex | pitch_helpers.py:117-118 | each numeral 1..7 sits at its base fifths plus one in the numeral table |
| PitchHelpers.QualityWritten | pitch_helpers.py:54-124 | the quality written for the value of an accepted quality is that quality |
| PitchHelpers.QualityNumeralWritten | pitch_helpers.py:46-125 | an accepted quality with a numeral 1..7 is written back unchanged |
| PitchHelpers.IntervalNameRoundTripFromName | pitch_helpers.py:46-125 | `fifths2interval_name(interval_name2fifths(n)) == n` for every accepted name with a single numeral 1..7 |
| PitchHelpers.IntervalNameAcceptedExamples | pitch_helpers.py:113-116 | P1 is 0 and m7 is −2 |
| PitchHelpers.DiminishedUnisonExample | pitch_helpers.py:77-81 | d1 is −7 and differs from P1 |
| PitchHelpers.MajorThirdExample | pitch_helpers.py:60-66 | M3 is 4 |
| PitchHelpers.QualityMismatchExamples | pitch_helpers.py:54-73 | P2 and M5 raise, the first because only unisons, fourths and fifths are perfect, the second because those cannot be major |
| PitchHelpers.ZeroNumeralExample | pitch_helpers.py:50 | P0 raises for its zero numeral |
| PitchHelpers.NotAnIntervalNameExample | pitch_helpers.py:47-48 | x5 raises because it does not match the interval-name grammar |
| PitchHelpers.IntervalNameWrittenExamples | pitch_helpers.py:113-120 | 0, −1, −2 and 4 are written P1, P4, m7 and M3 |
| PitchHelpers.AlteredIntervalNameExamples | pitch_helpers.py:121-124 | 6 is written a4 and −7 is written d1 |

## Left out

- `harmony.py`, the abstract marker classes `Point`, `Vector`, `Pitch` and `Interval`, the
  `octave` properties, and the `__main__` demonstration blocks are not part of this model.
- Bare `IntType` instances are not modelled; only the six concrete scalar classes are.
- Floats are not modelled: a float operand, true division `/` with its reflection, and `int(float)`.
- The bitwise and shift operators `&`, `|`, `^`, `<<`, `>>` and their reflections are not
  modelled. Like `*`, they follow the base rule.
- `SpecificPitchClass.from_fifths` is not modelled separately; it is the same as
  `New(SPC, FromInt(f))`.
- PyInt.PyPow: a negative exponent goes through a float in Python; the model computes
  trunc(1/bⁿ) exactly. It therefore does not reproduce the OverflowError for huge powers, or the
  float rounding for exponents below −2⁵³.
- PyInt.ParseInt: accepts only an optional sign followed by ASCII digits. Python's `int()` also
  strips surrounding whitespace, allows underscores between digits and accepts non-ASCII digits.
- PitchHelpers.SplitNoteName: Python's `$` also matches before a final newline, so `"C#\n"` is
  accepted by the source and rejected by the model. The same holds for interval names.
- PitchHelpers.IntervalNameToFifths: `\d` also matches non-ASCII decimal digits; the model accepts
  ASCII digits only.
- Exception types and message texts are reduced to the cases of the `Error` and `NameError`
  datatypes. `assert` checks are modelled as always on, though `python -O` strips them.
- Hashing, `isinstance` against the `int` base class, and Python's reflected-operator protocol
  itself are not modelled. `Reflected` covers the case the protocol reaches: an int on the left.

## Findings

| source | as written | input that shows it | evidently intended | confidence | as-written member | corrected member |
|---|---|---|---|---|---|---|
| abstract.py:232-265 | `__eq__` and the order comparisons refuse a scalar of another class, but `__ne__` is not overridden, so `!=` falls back to `int.__ne__` with no class check | `SemitonesScalar(1) != FifthsScalar(1)` returns False, while `==` on the same pair raises | `!=` raises for a scalar of another class and is otherwise the negation of `==` | not executed | Abstract.NotEqualAsWritten (Abstract.NotEqualAsWrittenMixesTypes) | Abstract.Compare (Abstract.NotEqualNegatesEqual) |
| pitch.py:89-96 | SPC's (and, at pitch.py:129-136, SIC's) `convert_init_value` calls `int(value)` on any non-string, replacing `FifthsScalar`'s check for semitone scalars | `SpecificPitchClass(EnharmonicPitchClass(1))` stores fifths 1, which is G, though the argument is C sharp | a semitone scalar cannot be converted to fifths, as `FifthsScalar.convert_init_value` says, so the construction fails | not executed | Pitch.NewAsWritten (Pitch.NewAsWrittenReinterpretsSemitones) | Pitch.New (Pitch.NewFromScalarKeepsSemitones) |
