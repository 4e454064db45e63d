/** The name codec: note names ("Ab") and interval names ("m7") to and from positions on the
    line of fifths, where C = 0, G = 1, F = -1, and an interval is counted in fifths from P1 = 0. */
module PitchHelpers {
  import opened Results
  import opened PyInt

  /** The assertions the codec raises (`AssertionError`); the message text is not modelled. */
  datatype NameError =
    | NotANoteName         // not one letter A-G / a-g followed by only '#'s or only 'b's
    | NotAnIntervalName    // not a quality (P, M, m, a+, d+) followed by decimal digits
    | ZeroIntervalNumber   // the numeral is 0
    | PerfectNotAllowed    // 'P' on a 2nd, 3rd, 6th or 7th
    | MajorNotAllowed      // 'M' on a unison, 4th or 5th
    | MinorNotAllowed      // 'm' on a unison, 4th or 5th

  /** Python's `n * c` for a one-character string `c`. */
  function Repeat(c: char, n: nat): (s: string)
    ensures |s| == n
    ensures forall i :: 0 <= i < n ==> s[i] == c
  {
    if n == 0 then "" else [c] + Repeat(c, n - 1)
  }

  /** Python's `s.count(c)`. */
  function Count(c: char, s: string): nat {
    if |s| == 0 then 0 else (if s[0] == c then 1 else 0) + Count(c, s[1..])
  }

  /** A count never exceeds the length, and is 0 exactly when the character does not occur. */
  lemma {:induction false} CountBounds(c: char, s: string)
    ensures Count(c, s) <= |s|
    ensures Count(c, s) == 0 <==> forall i :: 0 <= i < |s| ==> s[i] != c
  {
    if |s| > 0 {
      CountBounds(c, s[1..]);
      assert forall i :: 1 <= i < |s| ==> s[i] == s[1..][i - 1];
    }
  }

  lemma {:induction false} CountRepeat(c: char, d: char, n: nat)
    ensures Count(c, Repeat(d, n)) == if c == d then n else 0
  {
    if n > 0 {
      assert Repeat(d, n)[1..] == Repeat(d, n - 1);
      CountRepeat(c, d, n - 1);
    }
  }

  predicate AllAre(s: string, c: char) {
    forall i :: 0 <= i < |s| ==> s[i] == c
  }

  // ----- note names -----

  predicate IsNoteLetter(c: char) {
    'A' <= c <= 'G' || 'a' <= c <= 'g'
  }

  /** `split_note_name(name)`: the accidentals and the letter of a name matching
      `([A-G]|[a-g])(#*|b*)`, or the assertion failure for any other string. */
  function SplitNoteName(name: string): (r: Result<(string, char), NameError>)
    ensures r.Ok? ==> [r.value.1] + r.value.0 == name && IsNoteLetter(r.value.1)
    ensures r.Ok? ==> r.value.0 == Repeat('#', |r.value.0|) || r.value.0 == Repeat('b', |r.value.0|)
    ensures r.Err? ==> r.error == NotANoteName
  {
    if |name| >= 1 && IsNoteLetter(name[0]) && (AllAre(name[1..], '#') || AllAre(name[1..], 'b')) then
      Ok((name[1..], name[0]))
    else
      Err(NotANoteName)
  }

  /** Every letter followed by a run of one accidental is accepted and split there. */
  lemma SplitNoteNameAccepts(letter: char, accidental: char, n: nat)
    requires IsNoteLetter(letter) && (accidental == '#' || accidental == 'b')
    ensures SplitNoteName([letter] + Repeat(accidental, n)) == Ok((Repeat(accidental, n), letter))
  {
    var name := [letter] + Repeat(accidental, n);
    assert name[1..] == Repeat(accidental, n);
  }

  /** `split_note_name(name, count=True)`: the accidentals as a signed number, sharps
      counting +1 and flats -1. */
  function SplitNoteNameCount(name: string): (r: Result<(int, char), NameError>)
    ensures r.Ok? == SplitNoteName(name).Ok?
    ensures r.Err? ==> r.error == NotANoteName
    ensures r.Ok? ==>
      var (accidentals, letter) := SplitNoteName(name).value;
      r.value.1 == letter &&
      r.value.0 == if accidentals == Repeat('b', |accidentals|) then -|accidentals| else |accidentals|
  {
    match SplitNoteName(name)
    case Err(e) => Err(e)
    case Ok((accidentals, letter)) =>
      var n := |accidentals|;
      CountRepeat('#', '#', n);
      CountRepeat('b', '#', n);
      CountRepeat('#', 'b', n);
      CountRepeat('b', 'b', n);
      Ok((Count('#', accidentals) - Count('b', accidentals), letter))
  }

  /** Python's `c.upper()` on an ASCII letter. */
  function Upper(c: char): char {
    if 'a' <= c <= 'z' then (c as int - 32) as char else c
  }

  /** `upper` turns a lower-case ASCII letter into its capital, leaves every other character
      alone, and never yields a lower-case letter, so upper-casing twice changes nothing. */
  lemma UpperCase(c: char)
    ensures 'a' <= c <= 'z' ==> 'A' <= Upper(c) <= 'Z' && Upper(c) as int == c as int - 32
    ensures !('a' <= c <= 'z') ==> Upper(c) == c
    ensures Upper(Upper(c)) == Upper(c)
  {
  }

  /** The line-of-fifths position of a natural note: F=-1, C=0, G=1, D=2, A=3, E=4, B=5. */
  function StepFifths(letter: char): int
    requires 'A' <= letter <= 'G'
  {
    match letter
    case 'C' => 0
    case 'D' => 2
    case 'E' => 4
    case 'F' => -1
    case 'G' => 1
    case 'A' => 3
    case 'B' => 5
  }

  /** `note_name2fifths(name)`: the letter's position plus seven fifths per sharp (minus seven
      per flat); the letter is read case-insensitively. */
  function NoteNameToFifths(name: string): (r: Result<int, NameError>)
    ensures r.Ok? == SplitNoteName(name).Ok?
    ensures r.Err? ==> r.error == NotANoteName
  {
    match SplitNoteNameCount(name)
    case Err(e) => Err(e)
    case Ok((accidentals, letter)) => Ok(StepFifths(Upper(letter)) + 7 * accidentals)
  }

  /** The seven natural notes in line-of-fifths order, starting from F. */
  const NoteSteps: seq<string> := ["F", "C", "G", "D", "A", "E", "B"]

  /** The accidentals `_fifths2str` writes for the shifted position k: one per whole
      cycle of seven, flats when k is negative and sharps otherwise. */
  function Accidentals(k: int): (s: string)
    ensures AllAre(s, '#') || AllAre(s, 'b')
    ensures Count('#', s) - Count('b', s) == k / 7
    ensures s == Repeat('#', |s|) || s == Repeat('b', |s|)
  {
    if k < 0 then
      CountRepeat('#', 'b', -(k / 7));
      CountRepeat('b', 'b', -(k / 7));
      Repeat('b', -(k / 7))
    else
      CountRepeat('#', '#', k / 7);
      CountRepeat('b', '#', k / 7);
      Repeat('#', k / 7)
  }

  /** `_fifths2str(fifths, steps, inverted)`: the step name for (fifths + 1) mod 7 together
      with its accidentals; `inverted` puts the accidentals after the step name. */
  function FifthsToStr(fifths: int, steps: seq<string>, inverted: bool): (r: string)
    requires |steps| >= 7
    ensures inverted ==> r == steps[(fifths + 1) % 7] + Accidentals(fifths + 1)
    ensures !inverted ==> r == Accidentals(fifths + 1) + steps[(fifths + 1) % 7]
  {
    var k := fifths + 1;
    var acc := if k < 0 then Repeat('b', -(k / 7)) else Repeat('#', k / 7);
    if inverted then steps[k % 7] + acc else acc + steps[k % 7]
  }

  /** `fifths2note_name(fifths)`: always a valid note name with an upper-case letter. */
  function FifthsToNoteName(fifths: int): (r: string)
    ensures SplitNoteName(r).Ok? && 'A' <= r[0] <= 'G'
  {
    var r := FifthsToStr(fifths, NoteSteps, true);
    assert r == [NoteSteps[(fifths + 1) % 7][0]] + Accidentals(fifths + 1);
    r
  }

  /** The index of a natural letter in `NoteSteps` is one more than its position. */
  lemma NoteStepIndex(j: int)
    requires 0 <= j < 7
    ensures |NoteSteps[j]| == 1 && 'A' <= NoteSteps[j][0] <= 'G'
    ensures StepFifths(NoteSteps[j][0]) == j - 1
  {
  }

  /** `note_name2fifths(fifths2note_name(f)) == f` for every integer f. */
  lemma NoteNameRoundTrip(fifths: int)
    ensures NoteNameToFifths(FifthsToNoteName(fifths)) == Ok(fifths)
  {
    var k := fifths + 1;
    var name := FifthsToNoteName(fifths);
    var acc := Accidentals(k);
    NoteStepIndex(k % 7);
    var letter := NoteSteps[k % 7][0];
    assert name == [letter] + acc;
    assert name[1..] == acc;
    assert SplitNoteName(name) == Ok((acc, letter));
    CountRepeat('#', '#', |acc|);
    CountRepeat('b', '#', |acc|);
    CountRepeat('#', 'b', |acc|);
    CountRepeat('b', 'b', |acc|);
    assert SplitNoteNameCount(name) == Ok((k / 7, letter));
  }

  /** Splitting j + 7a at seven gives back a and j. */
  lemma SevenSplit(j: int, a: int)
    requires 0 <= j < 7
    ensures (j + 7 * a) % 7 == j && (j + 7 * a) / 7 == a
  {
  }

  /** The accidentals written for j + 7n (sharps) or j - 7n (flats) are n of them. */
  lemma AccidentalsRebuilt(n: nat, sharp: bool, j: int)
    requires 0 <= j < 7
    ensures Accidentals(j + 7 * (if sharp then n as int else -(n as int))) == Repeat(if sharp then '#' else 'b', n)
  {
    var a: int := if sharp then n as int else -(n as int);
    SevenSplit(j, a);
    if sharp || n == 0 {
      assert j + 7 * a >= 0 && (j + 7 * a) / 7 == n;
    } else {
      assert j + 7 * a < 0 && -((j + 7 * a) / 7) == n;
    }
  }

  /** Each natural letter sits in `NoteSteps` at its fifths position plus one. */
  lemma LetterStep(letter: char)
    requires 'A' <= letter <= 'G'
    ensures 0 <= StepFifths(letter) + 1 < 7 && NoteSteps[StepFifths(letter) + 1] == [letter]
  {
  }

  /** The note name written for the position k - 1: the step at k mod 7, then the accidentals. */
  lemma NoteNameAt(k: int)
    ensures FifthsToNoteName(k - 1) == NoteSteps[k % 7] + Accidentals(k)
  {
  }

  /** The position of a letter moved by n sharps (or n flats) is written as that letter
      followed by those accidentals. */
  lemma WrittenFromParts(letter: char, sharp: bool, n: nat)
    requires 'A' <= letter <= 'G'
    ensures FifthsToNoteName(StepFifths(letter) + 7 * (if sharp then n as int else -(n as int))) ==
      [letter] + Repeat(if sharp then '#' else 'b', n)
  {
    var a: int := if sharp then n as int else -(n as int);
    var j := StepFifths(letter) + 1;
    var k := j + 7 * a;
    assert StepFifths(letter) + 7 * a == k - 1;
    NoteNameAt(k);
    assert NoteSteps[k % 7] == [letter] by {
      LetterStep(letter);
      SevenSplit(j, a);
    }
    AccidentalsRebuilt(n, sharp, j);
  }

  /** `fifths2note_name(note_name2fifths(n)) == n` for every note name with an upper-case
      letter (a lower-case letter comes back upper-case). */
  lemma NoteNameRoundTripFromName(name: string)
    requires SplitNoteName(name).Ok? && 'A' <= name[0] <= 'G'
    ensures NoteNameToFifths(name).Ok?
    ensures FifthsToNoteName(NoteNameToFifths(name).value) == name
  {
    var (acc, letter) := SplitNoteName(name).value;
    var sharp := acc != Repeat('b', |acc|);
    var n := |acc|;
    var a: int := if sharp then n as int else -(n as int);
    assert NoteNameToFifths(name) == Ok(StepFifths(letter) + 7 * a) by {
      assert Upper(letter) == letter;
    }
    assert FifthsToNoteName(StepFifths(letter) + 7 * a) == name by {
      WrittenFromParts(letter, sharp, n);
      assert name == [letter] + Repeat(if sharp then '#' else 'b', n);
    }
  }

  /** The letter is case-insensitive: "ab" and "Ab" denote the same position. */
  lemma NoteNameCaseInsensitive(name: string)
    requires SplitNoteName(name).Ok?
    ensures SplitNoteName([Upper(name[0])] + name[1..]).Ok?
    ensures NoteNameToFifths([Upper(name[0])] + name[1..]) == NoteNameToFifths(name)
  {
    var upper := [Upper(name[0])] + name[1..];
    assert upper[1..] == name[1..];
  }

  /** Ab and ab are four fifths below C. */
  lemma NoteNameExamples()
    ensures NoteNameToFifths("Ab") == Ok(-4) && NoteNameToFifths("ab") == Ok(-4)
  {
    NoteNameRoundTrip(-4);
    assert "Ab"[1..] == "b";
    assert "ab"[1..] == "b";
  }

  /** 0 = C, -1 = F, -2 = Bb, 1 = G, 7 = C#. */
  lemma NoteNameWrittenExamples()
    ensures FifthsToNoteName(-4) == "Ab" && FifthsToNoteName(0) == "C"
    ensures FifthsToNoteName(-1) == "F" && FifthsToNoteName(-2) == "Bb"
    ensures FifthsToNoteName(1) == "G" && FifthsToNoteName(7) == "C#"
  {
  }

  /** A letter outside A-G, mixed accidentals and the empty name are rejected. */
  lemma NoteNameRejectedExamples()
    ensures NoteNameToFifths("H").Err? && NoteNameToFifths("C#b").Err? && NoteNameToFifths("").Err?
  {
    assert "C#b"[1..] == "#b" && "#b"[1] == 'b' && "#b"[0] == '#';
  }

  // ----- interval names -----

  /** The length of the quality part of an interval name: everything before the first digit. */
  function QualityEnd(s: string): (i: nat)
    ensures i <= |s|
    ensures forall j :: 0 <= j < i ==> !IsDigit(s[j])
    ensures i < |s| ==> IsDigit(s[i])
  {
    if |s| == 0 || IsDigit(s[0]) then 0 else 1 + QualityEnd(s[1..])
  }

  lemma {:induction false} QualityEndAppend(q: string, t: string)
    requires forall j :: 0 <= j < |q| ==> !IsDigit(q[j])
    requires |t| >= 1 && IsDigit(t[0])
    ensures QualityEnd(q + t) == |q|
  {
    if |q| > 0 {
      assert (q + t)[1..] == q[1..] + t;
      QualityEndAppend(q[1..], t);
    }
  }

  /** The qualities `(P|M|m|a+|d+)`. */
  predicate IsQuality(q: string) {
    q == "P" || q == "M" || q == "m" || (|q| >= 1 && (AllAre(q, 'a') || AllAre(q, 'd')))
  }

  /** The name matches `(P|M|m|a+|d+)\d+`: a quality, then at least one digit up to the end. */
  predicate MatchesIntervalGrammar(name: string) {
    var i := QualityEnd(name);
    IsQuality(name[..i]) && i < |name| && AllDigits(name[i..])
  }

  /** The perfect or major version of the interval with numeral n, as fifths:
      ((2n - 1) mod 7) - 1, always in -1..5. */
  function BaseFifths(n: int): (b: int)
    requires n > 0
    ensures -1 <= b <= 5
  {
    (2 * n - 1) % 7 - 1
  }

  /** b + 7m and b differ by a multiple of seven. */
  lemma SevensApart(b: int, m: int)
    ensures (b + 7 * m - b) % 7 == 0
  {
    assert b + 7 * m - b == 7 * m;
  }

  /** The quality arithmetic of `interval_name2fifths` once the name is split: minor lowers
      the major base by seven fifths, each 'a' raises it by seven, and each 'd' lowers it by
      seven, plus seven more below a non-perfect base (which has to pass through minor). */
  function QualityFifths(quality: string, n: int): (r: Result<int, NameError>)
    requires IsQuality(quality) && n > 0
    ensures r.Ok? ==> (r.value - BaseFifths(n)) % 7 == 0
  {
    var base := BaseFifths(n);
    var c := |quality|;
    // base is in -1..5, so `base in (-1, 0, 1)` is base <= 1 and `base in (2, 3, 4, 5)` is 2 <= base
    if quality == "P" then
      if base <= 1 then Ok(base) else Err(PerfectNotAllowed)
    else if quality == "M" then
      if 2 <= base then Ok(base) else Err(MajorNotAllowed)
    else if quality == "m" then
      if 2 <= base then SevensApart(base, -1); Ok(base - 7) else Err(MinorNotAllowed)
    else if quality[0] == 'a' then
      SevensApart(base, c);
      Ok(base + 7 * c)
    else if base <= 1 then
      SevensApart(base, -c);
      Ok(base - 7 * c)
    else
      SevensApart(base, -(c + 1));
      Ok(base - 7 * (c + 1))
  }

  /** `interval_name2fifths(name)`: the name must match `(P|M|m|a+|d+)\d+` (ASCII digits) with
      a non-zero numeral whose quality fits it. */
  function IntervalNameToFifths(name: string): (r: Result<int, NameError>)
    ensures r.Ok? ==> |name| >= 2 && IsDigit(name[|name| - 1])
    ensures r.Ok? ==> var i := QualityEnd(name);
      IsQuality(name[..i]) && i < |name| && AllDigits(name[i..]) && DigitsValue(name[i..]) > 0
    ensures r == Err(NotAnIntervalName) <==> !MatchesIntervalGrammar(name)
    ensures r == Err(ZeroIntervalNumber) <==>
      MatchesIntervalGrammar(name) && DigitsValue(name[QualityEnd(name)..]) == 0
  {
    var i := QualityEnd(name);
    if !MatchesIntervalGrammar(name) then
      Err(NotAnIntervalName)
    else if DigitsValue(name[i..]) == 0 then
      Err(ZeroIntervalNumber)
    else
      QualityFifths(name[..i], DigitsValue(name[i..]))
  }

  /** The grammar: a quality followed by digits splits at the first digit, and its value is
      that of its quality and numeral. */
  lemma IntervalNameParts(quality: string, numeral: string)
    requires IsQuality(quality) && |numeral| >= 1 && AllDigits(numeral)
    ensures IntervalNameToFifths(quality + numeral) ==
      if DigitsValue(numeral) == 0 then Err(ZeroIntervalNumber)
      else QualityFifths(quality, DigitsValue(numeral))
  {
    var name := quality + numeral;
    assert forall j :: 0 <= j < |quality| ==> !IsDigit(quality[j]) by {
      forall j | 0 <= j < |quality| ensures !IsDigit(quality[j]) {
        assert quality[j] in "PMmad";
      }
    }
    QualityEndAppend(quality, numeral);
    assert name[..|quality|] == quality && name[|quality|..] == numeral;
  }

  /** A quality followed by one digit is decoded by the quality rule, or rejected for 0. */
  lemma SingleNumeral(quality: string, c: char)
    requires IsQuality(quality) && IsDigit(c)
    ensures IntervalNameToFifths(quality + [c]) ==
      if c == '0' then Err(ZeroIntervalNumber) else QualityFifths(quality, DigitValue(c))
  {
    IntervalNameParts(quality, [c]);
    assert DigitsValue([c]) == DigitValue(c) by {
      assert [c][..0] == [];
    }
  }

  /** Unisons, fourths and fifths (numerals 1, 4, 5 modulo 7) take 'P'; seconds, thirds,
      sixths and sevenths take 'M' and 'm'; 'a' and 'd' fit every numeral. */
  lemma IntervalQualityFits(quality: string, n: int)
    requires IsQuality(quality) && n > 0
    ensures QualityFifths(quality, n).Ok? <==>
      (quality == "P" ==> n % 7 in {1, 4, 5}) &&
      (quality == "M" || quality == "m" ==> n % 7 in {0, 2, 3, 6})
    ensures quality == "P" && !(n % 7 in {1, 4, 5}) ==> QualityFifths(quality, n) == Err(PerfectNotAllowed)
    ensures quality == "M" && n % 7 in {1, 4, 5} ==> QualityFifths(quality, n) == Err(MajorNotAllowed)
    ensures quality == "m" && n % 7 in {1, 4, 5} ==> QualityFifths(quality, n) == Err(MinorNotAllowed)
  {
    var k := n % 7;
    assert BaseFifths(n) == (2 * k - 1) % 7 - 1;
    assert k == 0 ==> BaseFifths(n) == 5;
    assert k == 1 ==> BaseFifths(n) == 0;
    assert k == 2 ==> BaseFifths(n) == 2;
    assert k == 3 ==> BaseFifths(n) == 4;
    assert k == 4 ==> BaseFifths(n) == -1;
    assert k == 5 ==> BaseFifths(n) == 1;
    assert k == 6 ==> BaseFifths(n) == 3;
  }

  /** Each quality occupies its own band of the line of fifths: P in -1..1, M in 2..5, m in
      -5..-2, k 'a's exactly where (f + 1) / 7 == k above 5, and k 'd's exactly where
      (1 - f) / 7 == k below -5. */
  lemma IntervalQualityBands(quality: string, n: int)
    requires IsQuality(quality) && n > 0 && QualityFifths(quality, n).Ok?
    ensures var f := QualityFifths(quality, n).value;
      (quality == "P" ==> -1 <= f <= 1) &&
      (quality == "M" ==> 2 <= f <= 5) &&
      (quality == "m" ==> -5 <= f <= -2) &&
      (quality[0] == 'a' ==> f > 5 && (f + 1) / 7 == |quality|) &&
      (quality[0] == 'd' ==> f < -5 && (1 - f) / 7 == |quality|)
  {
    var b := BaseFifths(n);
    var f := QualityFifths(quality, n).value;
    var c := |quality|;
    if quality[0] == 'a' {
      assert quality != "P" && quality != "M" && quality != "m";
      assert f == b + 7 * c;
      assert f + 1 == (b + 1) + 7 * c;
    } else if quality[0] == 'd' {
      assert quality != "P" && quality != "M" && quality != "m";
      if b <= 1 {
        assert f == b - 7 * c;
        assert 1 - f == (1 - b) + 7 * c;
      } else {
        assert f == b - 7 * (c + 1);
        assert 1 - f == (8 - b) + 7 * (c - 1) + 7;
      }
    }
  }

  /** Numerals n and n + 7 name the same interval class: compound intervals collapse. */
  lemma CompoundIntervalsCollapse(quality: string, n: int)
    requires IsQuality(quality) && n > 0
    ensures QualityFifths(quality, n + 7) == QualityFifths(quality, n)
  {
    assert BaseFifths(n + 7) == BaseFifths(n);
  }

  /** The numerals in line-of-fifths order, indexed by (fifths + 1) mod 7. */
  const IntervalNumerals: seq<char> := ['4', '1', '5', '2', '6', '3', '7']

  /** The qualities of the classes -5..5. */
  const CentralQualities: seq<char> := ['m', 'm', 'm', 'm', 'P', 'P', 'P', 'M', 'M', 'M', 'M']

  /** The quality `fifths2interval_name` writes: from the central table within -5..5, one
      'a' per cycle of seven above, one 'd' per cycle of seven below. */
  function QualityOf(fifths: int): (q: string)
    ensures IsQuality(q)
  {
    if -5 <= fifths <= 5 then [CentralQualities[fifths + 5]]
    else if fifths > 5 then Repeat('a', (fifths + 1) / 7)
    else Repeat('d', (-fifths + 1) / 7)
  }

  /** `fifths2interval_name(fifths)`: a quality followed by a single numeral 1..7. */
  function FifthsToIntervalName(fifths: int): (r: string)
    ensures |r| >= 2 && '1' <= r[|r| - 1] <= '7' && IsQuality(r[..|r| - 1])
  {
    var numeral := IntervalNumerals[(fifths + 1) % 7];
    var quality := QualityOf(fifths);
    assert (quality + [numeral])[..|quality|] == quality;
    quality + [numeral]
  }

  /** The numeral at index j of `IntervalNumerals` has base j - 1. */
  lemma IntervalNumeralBase(j: int)
    requires 0 <= j < 7
    ensures IsDigit(IntervalNumerals[j]) && 1 <= DigitValue(IntervalNumerals[j]) <= 7
    ensures BaseFifths(DigitValue(IntervalNumerals[j])) == j - 1
  {
  }

  /** The quality and the numeral written for f decode to f. */
  lemma QualityOfDecodes(fifths: int)
    ensures QualityFifths(QualityOf(fifths), DigitValue(IntervalNumerals[(fifths + 1) % 7])) == Ok(fifths)
  {
    var j, m := (fifths + 1) % 7, (fifths + 1) / 7;
    assert fifths == 7 * m + j - 1;
    IntervalNumeralBase(j);
    var quality := QualityOf(fifths);
    if -5 <= fifths <= 5 {
      if fifths <= -2 {
        assert quality == "m" && m == -1;
      } else if fifths <= 1 {
        assert quality == "P" && m == 0;
      } else {
        assert quality == "M" && m == 0;
      }
    } else if fifths > 5 {
      assert quality == Repeat('a', m) && m >= 1;
      assert quality[0] == 'a' && quality != "P" && quality != "M" && quality != "m";
    } else {
      var d := (-fifths + 1) / 7;
      assert quality == Repeat('d', d) && d >= 1;
      assert quality[0] == 'd' && quality != "P" && quality != "M" && quality != "m";
      assert -fifths + 1 == 2 - j - 7 * m;
      if j <= 2 {
        assert d == -m;
      } else {
        assert d == -m - 1;
      }
    }
  }

  /** `interval_name2fifths(fifths2interval_name(f)) == f` for every integer f. */
  lemma IntervalNameRoundTrip(fifths: int)
    ensures IntervalNameToFifths(FifthsToIntervalName(fifths)) == Ok(fifths)
  {
    var c := IntervalNumerals[(fifths + 1) % 7];
    IntervalNumeralBase((fifths + 1) % 7);
    assert FifthsToIntervalName(fifths) == QualityOf(fifths) + [c];
    SingleNumeral(QualityOf(fifths), c);
    QualityOfDecodes(fifths);
  }

  /** The numeral 1..7 sits at index base + 1 of `IntervalNumerals`. */
  lemma IntervalNumeralIndex(numeral: char)
    requires '1' <= numeral <= '7'
    ensures IntervalNumerals[BaseFifths(DigitValue(numeral)) + 1] == numeral
  {
  }

  /** The quality `FifthsToIntervalName` writes for the value of an accepted quality. */
  lemma QualityWritten(quality: string, n: int)
    requires IsQuality(quality) && n > 0 && QualityFifths(quality, n).Ok?
    ensures QualityOf(QualityFifths(quality, n).value) == quality
  {
    IntervalQualityBands(quality, n);
    var f := QualityFifths(quality, n).value;
    if quality == "P" || quality == "M" || quality == "m" {
    } else if quality[0] == 'a' {
      assert quality == Repeat('a', |quality|);
    } else {
      assert quality == Repeat('d', |quality|);
    }
  }

  /** A value seven-congruent to a base b in -1..5 sits at index b + 1 of a seven-cycle. */
  lemma CycleIndex(f: int, b: int)
    requires -1 <= b <= 5 && (f - b) % 7 == 0
    ensures (f + 1) % 7 == b + 1
  {
    var q := (f - b) / 7;
    assert f + 1 == (b + 1) + 7 * q;
    SevenSplit(b + 1, q);
  }

  /** An accepted quality and a numeral 1..7 are written back unchanged. */
  lemma QualityNumeralWritten(quality: string, numeral: char)
    requires IsQuality(quality) && '1' <= numeral <= '7'
    requires QualityFifths(quality, DigitValue(numeral)).Ok?
    ensures FifthsToIntervalName(QualityFifths(quality, DigitValue(numeral)).value) == quality + [numeral]
  {
    var n := DigitValue(numeral);
    var f := QualityFifths(quality, n).value;
    var j := (f + 1) % 7;
    assert j == BaseFifths(n) + 1 by {
      CycleIndex(f, BaseFifths(n));
    }
    var c := IntervalNumerals[j];
    assert c == numeral by {
      IntervalNumeralIndex(numeral);
    }
    var q := QualityOf(f);
    assert q == quality by {
      QualityWritten(quality, n);
    }
    calc {
      FifthsToIntervalName(f);
      q + [c];
    }
  }

  /** The other direction for names with a single numeral 1..7:
      `fifths2interval_name(interval_name2fifths(s)) == s` whenever `s` is accepted.
      (A compound numeral comes back reduced: "P8" gives "P1".) */
  lemma IntervalNameRoundTripFromName(quality: string, numeral: char)
    requires IsQuality(quality) && '1' <= numeral <= '7'
    requires IntervalNameToFifths(quality + [numeral]).Ok?
    ensures FifthsToIntervalName(IntervalNameToFifths(quality + [numeral]).value) == quality + [numeral]
  {
    SingleNumeral(quality, numeral);
    QualityNumeralWritten(quality, numeral);
  }

  /** P1 is the unison, 0, and m7 is -2. */
  lemma IntervalNameAcceptedExamples()
    ensures IntervalNameToFifths("P1") == Ok(0) && IntervalNameToFifths("m7") == Ok(-2)
  {
    assert "P1" == "P" + ['1'] && "m7" == "m" + ['7'];
    SingleNumeral("P", '1');
    SingleNumeral("m", '7');
  }

  /** d1, the diminished unison, is seven fifths below P1. */
  lemma DiminishedUnisonExample()
    ensures IntervalNameToFifths("d1") == Ok(-7)
    ensures IntervalNameToFifths("d1") != IntervalNameToFifths("P1")
  {
    assert "d1" == "d" + ['1'];
    assert IsQuality("d") by { assert AllAre("d", 'd'); }
    assert QualityFifths("d", 1) == Ok(-7) by {
      assert BaseFifths(1) == 0;
      assert "d"[0] == 'd' && |"d"| == 1;
    }
    SingleNumeral("d", '1');
    IntervalNameAcceptedExamples();
  }

  /** M3 is four fifths above the unison. */
  lemma MajorThirdExample()
    ensures IntervalNameToFifths("M3") == Ok(4)
  {
    assert "M3" == "M" + ['3'];
    SingleNumeral("M", '3');
  }

  /** A quality that does not fit its numeral is rejected: P2 and M5. */
  lemma QualityMismatchExamples()
    ensures IntervalNameToFifths("P2") == Err(PerfectNotAllowed)
    ensures IntervalNameToFifths("M5") == Err(MajorNotAllowed)
  {
    assert "P2" == "P" + ['2'] && "M5" == "M" + ['5'];
    SingleNumeral("P", '2');
    SingleNumeral("M", '5');
  }

  /** The numeral 0 is rejected: P0. */
  lemma ZeroNumeralExample()
    ensures IntervalNameToFifths("P0") == Err(ZeroIntervalNumber)
  {
    assert "P0" == "P" + ['0'];
    SingleNumeral("P", '0');
  }

  /** A name outside the grammar is rejected: x5. */
  lemma NotAnIntervalNameExample()
    ensures IntervalNameToFifths("x5") == Err(NotAnIntervalName)
  {
    assert QualityEnd("x5") == 1;
    assert "x5"[..1] == "x";
    assert !IsQuality("x");
  }

  /** An unknown quality letter, a mixed or doubled quality and a lower-case 'p' are outside
      the grammar: A3, Pa5, MM3, p5. */
  lemma UnknownQualityExamples()
    ensures IntervalNameToFifths("A3") == Err(NotAnIntervalName)
    ensures IntervalNameToFifths("Pa5") == Err(NotAnIntervalName)
    ensures IntervalNameToFifths("MM3") == Err(NotAnIntervalName)
    ensures IntervalNameToFifths("p5") == Err(NotAnIntervalName)
  {
    assert QualityEnd("A3") == 1 && "A3"[..1] == "A";
    assert QualityEnd("Pa5") == 2 && "Pa5"[..2] == "Pa" && "Pa"[0] == 'P';
    assert QualityEnd("MM3") == 2 && "MM3"[..2] == "MM" && "MM"[0] == 'M';
    assert QualityEnd("p5") == 1 && "p5"[..1] == "p";
  }

  /** A quality without a numeral and a numeral without a quality are outside the grammar. */
  lemma MissingPartExamples()
    ensures IntervalNameToFifths("P") == Err(NotAnIntervalName)
    ensures IntervalNameToFifths("5") == Err(NotAnIntervalName)
  {
    assert QualityEnd("P") == 1;
    assert QualityEnd("5") == 0 && "5"[..0] == "";
  }

  /** 0 = P1, -1 = P4, -2 = m7, 4 = M3. */
  lemma IntervalNameWrittenExamples()
    ensures FifthsToIntervalName(0) == "P1" && FifthsToIntervalName(-1) == "P4"
    ensures FifthsToIntervalName(-2) == "m7" && FifthsToIntervalName(4) == "M3"
  {
  }

  /** Beyond the central classes: 6 = a4 and -7 = d1. */
  lemma AlteredIntervalNameExamples()
    ensures FifthsToIntervalName(6) == "a4" && FifthsToIntervalName(-7) == "d1"
  {
  }
}
