/**
 * Engineering-unit normaliser: parses "<number><unit>" strings, converts a magnitude
 * to its base unit through six fixed multiplier tables, and compares two such strings
 * with a relative tolerance. Magnitudes are exact reals (Python uses floats).
 */
module UnitUtils {
  import opened Wrappers
  import opened Text

  datatype Category = Capacitance | Resistance | Inductance | Voltage | Current | Frequency

  /** Base unit: farad. */
  const CapacitanceUnits: map<string, real> := map[
    "f" := 1.0, "mf" := 0.001, "\U{3BC}f" := 0.000001, "uf" := 0.000001,
    "nf" := 0.000000001, "pf" := 0.000000000001]

  /** Base unit: ohm. */
  const ResistanceUnits: map<string, real> := map[
    "\U{3C9}" := 1.0, "ohm" := 1.0, "ohms" := 1.0,
    "k\U{3C9}" := 1000.0, "kohm" := 1000.0, "kohms" := 1000.0,
    "m\U{3C9}" := 1000000.0, "mohm" := 1000000.0, "mohms" := 1000000.0,
    "g\U{3C9}" := 1000000000.0, "gohm" := 1000000000.0, "gohms" := 1000000000.0]

  /** Base unit: henry. */
  const InductanceUnits: map<string, real> := map[
    "h" := 1.0, "mh" := 0.001, "\U{3BC}h" := 0.000001, "uh" := 0.000001, "nh" := 0.000000001]

  /** Base unit: volt. */
  const VoltageUnits: map<string, real> := map["v" := 1.0, "mv" := 0.001, "kv" := 1000.0]

  /** Base unit: ampere. */
  const CurrentUnits: map<string, real> := map[
    "a" := 1.0, "ma" := 0.001, "\U{3BC}a" := 0.000001, "ua" := 0.000001, "na" := 0.000000001]

  /** Base unit: hertz. */
  const FrequencyUnits: map<string, real> := map[
    "hz" := 1.0, "khz" := 1000.0, "mhz" := 1000000.0, "ghz" := 1000000000.0]

  function Table(c: Category): map<string, real> {
    match c
    case Capacitance => CapacitanceUnits
    case Resistance => ResistanceUnits
    case Inductance => InductanceUnits
    case Voltage => VoltageUnits
    case Current => CurrentUnits
    case Frequency => FrequencyUnits
  }

  /** The key under which UNIT_CATEGORIES holds each table. */
  function CategoryName(c: Category): string {
    match c
    case Capacitance => "capacitance"
    case Resistance => "resistance"
    case Inductance => "inductance"
    case Voltage => "voltage"
    case Current => "current"
    case Frequency => "frequency"
  }

  /** The iteration order of UNIT_CATEGORIES. */
  const CategoryOrder: seq<Category> := [Capacitance, Resistance, Inductance, Voltage, Current, Frequency]

  /** The category a unit key's last character points to; every table key ends in one of its table's characters. */
  function EndCategory(c: char): Option<Category> {
    if c == 'f' then Some(Capacitance)
    else if c == '\U{3C9}' || c == 'm' || c == 's' then Some(Resistance)
    else if c == 'h' then Some(Inductance)
    else if c == 'v' then Some(Voltage)
    else if c == 'a' then Some(Current)
    else if c == 'z' then Some(Frequency)
    else None
  }

  lemma TableKeysEnd(c: Category, k: string)
    requires k in Table(c)
    ensures |k| > 0 && EndCategory(k[|k| - 1]) == Some(c)
  {
    match c
    case Capacitance => CapacitanceKeysEnd(k);
    case Resistance => ResistanceKeysEnd(k);
    case Inductance => InductanceKeysEnd(k);
    case Voltage => VoltageKeysEnd(k);
    case Current => CurrentKeysEnd(k);
    case Frequency => FrequencyKeysEnd(k);
  }

  // One table at a time: its keys are non-empty and end in one of the table's characters.

  lemma CapacitanceKeysEnd(k: string)
    requires k in CapacitanceUnits
    ensures |k| > 0 && EndCategory(k[|k| - 1]) == Some(Capacitance)
  {
  }

  lemma ResistanceKeysEnd(k: string)
    requires k in ResistanceUnits
    ensures |k| > 0 && EndCategory(k[|k| - 1]) == Some(Resistance)
  {
  }

  lemma InductanceKeysEnd(k: string)
    requires k in InductanceUnits
    ensures |k| > 0 && EndCategory(k[|k| - 1]) == Some(Inductance)
  {
  }

  lemma VoltageKeysEnd(k: string)
    requires k in VoltageUnits
    ensures |k| > 0 && EndCategory(k[|k| - 1]) == Some(Voltage)
  {
  }

  lemma CurrentKeysEnd(k: string)
    requires k in CurrentUnits
    ensures |k| > 0 && EndCategory(k[|k| - 1]) == Some(Current)
  {
  }

  lemma FrequencyKeysEnd(k: string)
    requires k in FrequencyUnits
    ensures |k| > 0 && EndCategory(k[|k| - 1]) == Some(Frequency)
  {
  }

  /** The six tables have no key in common. */
  lemma TablesDisjoint(c1: Category, c2: Category)
    requires c1 != c2
    ensures Table(c1).Keys !! Table(c2).Keys
  {
    forall k | k in Table(c1) && k in Table(c2) ensures false {
      TableKeysEnd(c1, k);
      TableKeysEnd(c2, k);
    }
  }

  /** The lookup key of a unit: lower-cased, spaces removed, then "Ω" spelled "ohm". */
  function LookupKey(unit: string): string {
    ReplaceChar(ReplaceChar(Lower(unit), ' ', ""), '\U{3A9}', "ohm")
  }

  /** The first category in `cats` whose table holds `key`. */
  function FindCategory(key: string, cats: seq<Category>): (r: Option<Category>)
    ensures r.Some? ==> r.value in cats && key in Table(r.value)
    ensures r.None? ==> forall c :: c in cats ==> key !in Table(c)
  {
    if cats == [] then None
    else if key in Table(cats[0]) then Some(cats[0])
    else FindCategory(key, cats[1..])
  }

  lemma AllCategoriesListed(c: Category)
    ensures c in CategoryOrder
  {
  }

  /** get_unit_category: the category of a unit, or None when no table knows it. */
  function GetUnitCategory(unit: string): (r: Option<Category>)
    ensures r.Some? ==> LookupKey(unit) in Table(r.value)
    ensures r.None? ==> forall c :: LookupKey(unit) !in Table(c)
  {
    var r := FindCategory(LookupKey(unit), CategoryOrder);
    if r.None? then
      forall c ensures LookupKey(unit) !in Table(c) { AllCategoriesListed(c); }
      r
    else r
  }

  /** Because the tables are disjoint, the category found is the only one that holds the unit. */
  lemma {:induction false} CategoryUnique(unit: string, c: Category)
    requires LookupKey(unit) in Table(c)
    ensures GetUnitCategory(unit) == Some(c)
  {
    match GetUnitCategory(unit)
    case Some(d) =>
      if d != c {
        TablesDisjoint(d, c);
      }
  }

  /** A magnitude expressed in base units. */
  function Scaled(value: real, multiplier: real): real {
    value * multiplier
  }

  /** normalize_value: an empty unit leaves the value unchanged; a known unit scales it by its multiplier; an unknown unit gives None. */
  function NormalizeValue(value: real, unit: string): (r: Option<real>)
    ensures unit == "" ==> r == Some(value)
    ensures unit != "" ==> (r.Some? <==> GetUnitCategory(unit).Some?)
  {
    if unit == "" then Some(value)
    else
      match GetUnitCategory(unit)
      case Some(c) => Some(Scaled(value, Table(c)[LookupKey(unit)]))
      case None => None
  }

  /** Any table that holds the unit gives the multiplier normalize_value applies. */
  lemma NormalizeByAnyTable(value: real, unit: string, c: Category)
    requires unit != "" && LookupKey(unit) in Table(c)
    ensures NormalizeValue(value, unit) == Some(Scaled(value, Table(c)[LookupKey(unit)]))
  {
    CategoryUnique(unit, c);
  }

  /** Normalisation succeeds exactly for the empty unit and for units some table knows. */
  lemma NormalizeDefined(value: real, unit: string)
    ensures NormalizeValue(value, unit).Some? <==> (unit == "" || exists c :: LookupKey(unit) in Table(c))
  {
    if unit != "" && GetUnitCategory(unit).Some? {
      assert LookupKey(unit) in Table(GetUnitCategory(unit).value);
    }
  }

  /** Without spaces, the lookup key is just the lower-cased unit: lower-casing never yields "Ω". */
  lemma LookupKeyNoSpace(unit: string)
    requires ' ' !in unit
    ensures LookupKey(unit) == Lower(unit)
  {
    var l := Lower(unit);
    forall i | 0 <= i < |l| ensures l[i] != ' ' && l[i] != '\U{3A9}' {
      assert unit[i] in unit;
      LowerCharNeither(unit[i]);
    }
    assert ReplaceChar(l, ' ', "") == l;
    assert ReplaceChar(l, '\U{3A9}', "ohm") == l;
  }

  /** Lower-casing gives a space only for a space, and never gives "Ω". */
  lemma LowerCharNeither(c: char)
    requires c != ' '
    ensures LowerChar(c) != ' ' && LowerChar(c) != '\U{3A9}'
  {
  }

  lemma LowerOhmSpellings()
    ensures Lower("MOhm") == "mohm" && Lower("mOhm") == "mohm"
  {
    var l := Lower("MOhm");
    assert l[0] == 'm' && l[1] == 'o' && l[2] == 'h' && l[3] == 'm';
    var l2 := Lower("mOhm");
    assert l2[0] == 'm' && l2[1] == 'o' && l2[2] == 'h' && l2[3] == 'm';
  }

  /** Lower-casing gives "MOhm" (megaohm) and "mOhm" (milliohm) the same key, whose multiplier is a million. */
  lemma MegaAndMilliOhmShareKey()
    ensures LookupKey("MOhm") == LookupKey("mOhm") == "mohm"
  {
    LowerOhmSpellings();
    LookupKeyNoSpace("MOhm");
    LookupKeyNoSpace("mOhm");
  }

  lemma MegaOhmMultiplier()
    ensures "mohm" in Table(Resistance) && Table(Resistance)["mohm"] == 1000000.0
  {
  }

  /** A milliohm reading is therefore scaled as a megaohm. */
  lemma MilliOhmScaledAsMegaOhm(value: real)
    ensures NormalizeValue(value, "mOhm") == Some(Scaled(value, 1000000.0))
  {
    MegaAndMilliOhmShareKey();
    MegaOhmMultiplier();
    NormalizeByAnyTable(value, "mOhm", Resistance);
  }

  // ---------------------------------------------------------------------------
  // parse_value

  /** Characters of the unit group `[a-zA-Zμ/±%]`. */
  predicate IsUnitChar(c: char) {
    ('a' <= c <= 'z') || ('A' <= c <= 'Z') || c == '\U{3BC}' || c == '/' || c == '\U{B1}' || c == '%'
  }

  predicate AllUnitChars(s: string) {
    forall i :: 0 <= i < |s| ==> IsUnitChar(s[i])
  }

  /** Characters of the number group `[\d.]`. */
  predicate IsNumChar(c: char) {
    IsAsciiDigit(c) || c == '.'
  }

  predicate AllNumChars(s: string) {
    forall i :: 0 <= i < |s| ==> IsNumChar(s[i])
  }

  /** Length of the longest prefix of `s` made of digits and dots. */
  function NumRunLength(s: string): (n: nat)
    ensures n <= |s| && AllNumChars(s[..n])
    ensures n < |s| ==> !IsNumChar(s[n])
  {
    if s == [] || !IsNumChar(s[0]) then 0
    else
      var n := 1 + NumRunLength(s[1..]);
      assert forall i :: 1 <= i < n ==> s[..n][i] == s[1..][..n - 1][i - 1];
      n
  }

  /** A digit/dot run that Python's float() accepts: at least one digit and at most one dot. */
  predicate ValidDecimal(run: string) {
    AllNumChars(run) && CountChar(run, '.') <= 1 && exists i :: 0 <= i < |run| && IsAsciiDigit(run[i])
  }

  function IndexOfDot(s: string): (k: nat)
    ensures k <= |s|
    ensures forall i :: 0 <= i < k ==> s[i] != '.'
    ensures k < |s| ==> s[k] == '.'
  {
    if s == [] || s[0] == '.' then 0 else 1 + IndexOfDot(s[1..])
  }

  function Pow10(n: nat): (p: nat)
    ensures p >= 1
  {
    if n == 0 then 1 else 10 * Pow10(n - 1)
  }

  /** The exact value of a valid decimal run such as "12", "0.5", "3." or ".25". */
  function DecimalValue(run: string): real
    requires ValidDecimal(run)
  {
    var k := IndexOfDot(run);
    var intPart := run[..k];
    var fracPart := if k < |run| then run[k + 1..] else "";
    assert AllDigits(intPart);
    assert AllDigits(fracPart) by {
      if k < |run| {
        assert run == intPart + [run[k]] + fracPart;
        CountCharSplit(intPart + [run[k]], fracPart, '.');
        CountCharSplit(intPart, [run[k]], '.');
        forall i | 0 <= i < |fracPart| ensures IsAsciiDigit(fracPart[i]) {
          assert IsNumChar(run[k + 1 + i]);
          if fracPart[i] == '.' {
            CountCharPositive(fracPart, '.');
          }
        }
      }
    }
    DigitsValue(intPart) as real + DigitsValue(fracPart) as real / Pow10(|fracPart|) as real
  }

  function SignLength(t: string): nat {
    if t != [] && (t[0] == '+' || t[0] == '-') then 1 else 0
  }

  /** The parts the regex `^([+-]?[\d.]+)\s*([a-zA-Zμ/±%]*)?$` assigns to a stripped string. */
  function SignPart(t: string): string {
    t[..SignLength(t)]
  }

  function RunPart(t: string): string {
    var rest := t[SignLength(t)..];
    rest[..NumRunLength(rest)]
  }

  function AfterRun(t: string): string {
    var rest := t[SignLength(t)..];
    rest[NumRunLength(rest)..]
  }

  function UnitPart(t: string): string {
    TrimLeft(AfterRun(t))
  }

  function SignValue(sign: string): real {
    if sign == "-" then -1.0 else 1.0
  }

  /** The value float() gives the signed run. */
  function Magnitude(sign: string, run: string): real
    requires ValidDecimal(run)
  {
    SignValue(sign) * DecimalValue(run)
  }

  /** The regex match on an already stripped string. */
  function ParseStripped(t: string): Option<(real, string)> {
    var run := RunPart(t);
    var unit := UnitPart(t);
    if run != [] && AllUnitChars(unit) && ValidDecimal(run) then
      Some((Magnitude(SignPart(t), run), unit))
    else None
  }

  /** parse_value: (number, unit) for a well-formed "<number><unit>" string; None otherwise. A missing unit is "". */
  function ParseValue(s: string): Option<(real, string)> {
    ParseStripped(Strip(s))
  }

  predicate IsSign(sign: string) {
    sign == "" || sign == "+" || sign == "-"
  }

  /** The shape the regex accepts: optional sign, a valid decimal run, optional white space, a unit of unit characters. */
  predicate WellFormed(sign: string, run: string, ws: string, unit: string) {
    IsSign(sign) && ValidDecimal(run) && AllSpace(ws) && AllUnitChars(unit)
  }

  lemma {:induction false} NumRunLengthOfConcat(run: string, tail: string)
    requires AllNumChars(run)
    requires tail == [] || !IsNumChar(tail[0])
    ensures NumRunLength(run + tail) == |run|
    decreases |run|
  {
    if run == [] {
      assert run + tail == tail;
    } else {
      assert (run + tail)[0] == run[0];
      assert (run + tail)[1..] == run[1..] + tail;
      NumRunLengthOfConcat(run[1..], tail);
    }
  }

  lemma Concat4(a: string, b: string, c: string, d: string)
    ensures a + b + c + d == a + (b + (c + d))
  {
  }

  /** The white space between the run and the unit. */
  function SpacePart(t: string): string {
    var a := AfterRun(t);
    a[..|a| - |UnitPart(t)|]
  }

  lemma Join4(t: string, a: string, b: string, c: string, d: string, rest: string, tail: string)
    requires t == a + rest && rest == b + tail && tail == c + d
    ensures t == a + b + c + d
  {
  }

  lemma SplitSign(t: string)
    ensures t == SignPart(t) + t[SignLength(t)..]
  {
  }

  lemma SplitRun(t: string)
    ensures t[SignLength(t)..] == RunPart(t) + AfterRun(t)
  {
  }

  lemma SplitSpace(t: string)
    ensures AfterRun(t) == SpacePart(t) + UnitPart(t)
  {
  }

  lemma Decompose(t: string)
    ensures t == SignPart(t) + RunPart(t) + SpacePart(t) + UnitPart(t)
  {
    SplitSign(t);
    SplitRun(t);
    SplitSpace(t);
    Join4(t, SignPart(t), RunPart(t), SpacePart(t), UnitPart(t), t[SignLength(t)..], AfterRun(t));
  }

  /** Soundness: a successful match splits the (stripped) input into a well-formed sign, run, white space and unit, and yields the signed decimal value and the unit. */
  lemma ParseStrippedSound(t: string)
    requires ParseStripped(t).Some?
    ensures t == SignPart(t) + RunPart(t) + SpacePart(t) + UnitPart(t)
    ensures WellFormed(SignPart(t), RunPart(t), SpacePart(t), UnitPart(t))
    ensures ParseStripped(t) == Some((Magnitude(SignPart(t), RunPart(t)), UnitPart(t)))
  {
    Decompose(t);
    SignPartIsSign(t);
    SpacePartIsSpace(t);
    var run, unit := RunPart(t), UnitPart(t);
    assert run != [] && AllUnitChars(unit) && ValidDecimal(run);
  }

  lemma SignPartIsSign(t: string)
    ensures IsSign(SignPart(t))
  {
    if SignLength(t) == 1 {
      assert SignPart(t) == [t[0]];
    }
  }

  lemma SpacePartIsSpace(t: string)
    ensures AllSpace(SpacePart(t))
  {
    var a := AfterRun(t);
    assert UnitPart(t) == TrimLeft(a);
  }

  lemma SignOfWellFormed(t: string, sign: string, rest: string)
    requires t == sign + rest && IsSign(sign)
    requires rest != [] && IsNumChar(rest[0])
    ensures SignLength(t) == |sign| && SignPart(t) == sign && t[SignLength(t)..] == rest
  {
    if sign == "" {
      assert t[0] == rest[0];
    } else {
      assert t[0] == sign[0];
    }
  }

  lemma RunOfWellFormed(rest: string, run: string, ws: string, unit: string)
    requires rest == run + (ws + unit)
    requires AllNumChars(run) && AllSpace(ws) && AllUnitChars(unit)
    ensures rest[..NumRunLength(rest)] == run && rest[NumRunLength(rest)..] == ws + unit
  {
    assert ws + unit == [] || !IsNumChar((ws + unit)[0]) by {
      if ws != [] {
        assert (ws + unit)[0] == ws[0] && IsSpace(ws[0]);
      } else if unit != [] {
        assert (ws + unit)[0] == unit[0] && IsUnitChar(unit[0]);
      }
    }
    NumRunLengthOfConcat(run, ws + unit);
  }

  /** Completeness: every well-formed decomposition of the (stripped) input is accepted, with its value and unit. */
  lemma ParseStrippedComplete(t: string, sign: string, run: string, ws: string, unit: string)
    requires t == sign + run + ws + unit
    requires WellFormed(sign, run, ws, unit)
    ensures ParseStripped(t) == Some((Magnitude(sign, run), unit))
  {
    assert run != [] && IsNumChar(run[0]);
    Concat4(sign, run, ws, unit);
    assert (run + (ws + unit))[0] == run[0];
    SignOfWellFormed(t, sign, run + (ws + unit));
    RunOfWellFormed(run + (ws + unit), run, ws, unit);
    assert RunPart(t) == run && AfterRun(t) == ws + unit;
    assert unit == [] || !IsSpace(unit[0]) by {
      if unit != [] {
        assert IsUnitChar(unit[0]);
      }
    }
    TrimLeftSpaces(ws, unit);
  }

  /** parse_value accepts exactly the inputs whose stripped form is well formed. */
  lemma ParseValueIff(s: string)
    ensures ParseValue(s).Some? <==>
      exists sign, run, ws, unit :: Strip(s) == sign + run + ws + unit && WellFormed(sign, run, ws, unit)
  {
    var t := Strip(s);
    if ParseValue(s).Some? {
      ParseStrippedSound(t);
    }
    if exists sign, run, ws, unit :: Strip(s) == sign + run + ws + unit && WellFormed(sign, run, ws, unit) {
      var sign, run, ws, unit :| t == sign + run + ws + unit && WellFormed(sign, run, ws, unit);
      ParseStrippedComplete(t, sign, run, ws, unit);
    }
  }

  lemma NotInConcat4(a: string, b: string, c: string, d: string, ch: char)
    requires ch !in a && ch !in b && ch !in c && ch !in d
    ensures ch !in a + b + c + d
  {
  }

  lemma NotInSign(sign: string, ch: char)
    requires IsSign(sign) && ch != '+' && ch != '-'
    ensures ch !in sign
  {
  }

  lemma NotInRun(run: string, ch: char)
    requires AllNumChars(run) && !IsNumChar(ch)
    ensures ch !in run
  {
  }

  lemma NotInSpace(ws: string, ch: char)
    requires AllSpace(ws) && !IsSpace(ch)
    ensures ch !in ws
  {
  }

  lemma NotInUnit(unit: string, ch: char)
    requires AllUnitChars(unit) && !IsUnitChar(ch)
    ensures ch !in unit
  {
  }

  /** A character outside every group of the pattern (sign, number, white space, unit) can appear nowhere in a parsable string. */
  lemma ForeignCharRejected(s: string, ch: char)
    requires ch in Strip(s)
    requires ch != '+' && ch != '-' && !IsNumChar(ch) && !IsSpace(ch) && !IsUnitChar(ch)
    ensures ParseValue(s) == None
  {
    var t := Strip(s);
    if ParseStripped(t).Some? {
      ParseStrippedSound(t);
      NotInSign(SignPart(t), ch);
      NotInRun(RunPart(t), ch);
      NotInSpace(SpacePart(t), ch);
      NotInUnit(UnitPart(t), ch);
      NotInConcat4(SignPart(t), RunPart(t), SpacePart(t), UnitPart(t), ch);
    }
  }

  /** "Ω" is not a unit character, so no resistance written with it ("100Ω", "10kΩ") parses. */
  lemma OhmSignRejected(s: string)
    requires '\U{3A9}' in Strip(s)
    ensures ParseValue(s) == None
  {
    ForeignCharRejected(s, '\U{3A9}');
  }
  // ---------------------------------------------------------------------------
  // compare_values

  /** Three-way comparison of plain numbers. */
  function Compare3(x: real, y: real): (r: int)
    ensures r == -1 <==> x < y
    ensures r == 0 <==> x == y
    ensures r == 1 <==> x > y
  {
    if x < y then -1 else if x > y then 1 else 0
  }

  function Abs(x: real): real {
    if x < 0.0 then -x else x
  }

  function Max(x: real, y: real): real {
    if x >= y then x else y
  }

  /** |x - y| relative to the larger magnitude, or absolute when both are zero. */
  function RelativeDiff(x: real, y: real): (d: real)
    ensures d >= 0.0
  {
    var diff := Abs(x - y);
    var m := Max(Abs(x), Abs(y));
    if m > 0.0 then diff / m else diff
  }

  lemma RelativeDiffSymmetric(x: real, y: real)
    ensures RelativeDiff(x, y) == RelativeDiff(y, x)
  {
    assert Abs(x - y) == Abs(y - x);
    assert Max(Abs(x), Abs(y)) == Max(Abs(y), Abs(x));
  }

  lemma RelativeDiffZero(x: real)
    ensures RelativeDiff(x, x) == 0.0
  {
  }

  /** Equal within the relative tolerance, otherwise ordered. */
  function TolerantCompare(x: real, y: real, tolerance: real): (r: int)
    ensures r == 0 <==> RelativeDiff(x, y) < tolerance
    ensures r == -1 <==> RelativeDiff(x, y) >= tolerance && x < y
    ensures r == 1 <==> RelativeDiff(x, y) >= tolerance && x >= y
  {
    if RelativeDiff(x, y) < tolerance then 0
    else if x < y then -1
    else 1
  }

  /** The category compare_values gives a unit: None for the empty unit. */
  function CategoryOf(unit: string): Option<Category> {
    if unit != "" then GetUnitCategory(unit) else None
  }

  /** The base-unit value compare_values compares: the plain number for the empty unit. */
  function BaseValue(value: real, unit: string): Option<real> {
    if unit != "" then NormalizeValue(value, unit) else Some(value)
  }

  /** compare_values on two parsed operands. */
  function CompareParsed(v1: real, u1: string, v2: real, u2: string, tolerance: real): (r: Option<int>)
    ensures r.Some? ==> -1 <= r.value <= 1
  {
    if u1 == "" && u2 == "" then Some(Compare3(v1, v2))
    else if CategoryOf(u1) != CategoryOf(u2) then None
    else
      var n1 := BaseValue(v1, u1);
      var n2 := BaseValue(v2, u2);
      if n1.None? || n2.None? then None
      else Some(TolerantCompare(n1.value, n2.value, tolerance))
  }

  /** compare_values: -1, 0 or 1 when both strings parse into comparable quantities, None otherwise. */
  function CompareValues(a: string, b: string, tolerance: real): (r: Option<int>)
    ensures r.Some? ==> -1 <= r.value <= 1
    ensures ParseValue(a).None? || ParseValue(b).None? ==> r.None?
  {
    match (ParseValue(a), ParseValue(b))
    case (Some((v1, u1)), Some((v2, u2))) => CompareParsed(v1, u1, v2, u2, tolerance)
    case _ => None
  }

  /** Two parsed operands compare exactly when both are unitless, or both carry known units of the same category. */
  lemma CompareParsedDefined(v1: real, u1: string, v2: real, u2: string, tolerance: real)
    ensures CompareParsed(v1, u1, v2, u2, tolerance).Some? <==>
      (u1 == "" && u2 == "") ||
      (u1 != "" && u2 != "" && GetUnitCategory(u1).Some? && GetUnitCategory(u1) == GetUnitCategory(u2))
  {
  }

  /** Unitless operands compare exactly, whatever the tolerance. */
  lemma UnitlessIgnoresTolerance(v1: real, v2: real, t1: real, t2: real)
    ensures CompareParsed(v1, "", v2, "", t1) == CompareParsed(v1, "", v2, "", t2) == Some(Compare3(v1, v2))
  {
  }

  /** Operands of one category compare by their base-unit values under the tolerance. */
  lemma SameCategoryCompares(v1: real, u1: string, v2: real, u2: string, tolerance: real, c: Category)
    requires u1 != "" && u2 != ""
    requires LookupKey(u1) in Table(c) && LookupKey(u2) in Table(c)
    ensures CompareParsed(v1, u1, v2, u2, tolerance) ==
      Some(TolerantCompare(Scaled(v1, Table(c)[LookupKey(u1)]), Scaled(v2, Table(c)[LookupKey(u2)]), tolerance))
  {
    CategoryUnique(u1, c);
    CategoryUnique(u2, c);
    NormalizeByAnyTable(v1, u1, c);
    NormalizeByAnyTable(v2, u2, c);
  }

  /** With a positive tolerance, swapping the operands negates the answer. */
  lemma CompareParsedAntisymmetric(v1: real, u1: string, v2: real, u2: string, tolerance: real)
    requires tolerance > 0.0
    ensures var r := CompareParsed(v1, u1, v2, u2, tolerance);
      var s := CompareParsed(v2, u2, v1, u1, tolerance);
      r.Some? <==> s.Some? && (r.Some? ==> r.value == -s.value)
  {
    if u1 == "" && u2 == "" {
    } else if CategoryOf(u1) != CategoryOf(u2) {
      assert CompareParsed(v1, u1, v2, u2, tolerance).None? && CompareParsed(v2, u2, v1, u1, tolerance).None?;
    } else {
      var n1 := BaseValue(v1, u1);
      var n2 := BaseValue(v2, u2);
      if n1.Some? && n2.Some? {
        TolerantCompareAntisymmetric(n1.value, n2.value, tolerance);
      }
    }
  }

  lemma TolerantCompareAntisymmetric(x: real, y: real, tolerance: real)
    requires tolerance > 0.0
    ensures TolerantCompare(x, y, tolerance) == -TolerantCompare(y, x, tolerance)
  {
    RelativeDiffSymmetric(x, y);
    if RelativeDiff(x, y) >= tolerance {
      RelativeDiffZero(x);
      assert x != y;
    }
  }

  lemma CompareValuesAntisymmetric(a: string, b: string, tolerance: real)
    requires tolerance > 0.0
    ensures var r := CompareValues(a, b, tolerance);
      var s := CompareValues(b, a, tolerance);
      r.Some? <==> s.Some? && (r.Some? ==> r.value == -s.value)
  {
    var pa, pb := ParseValue(a), ParseValue(b);
    if pa.Some? && pb.Some? {
      CompareValuesParsed(a, b, tolerance);
      CompareValuesParsed(b, a, tolerance);
      CompareParsedAntisymmetric(pa.value.0, pa.value.1, pb.value.0, pb.value.1, tolerance);
    }
  }

  /** When both strings parse, the comparison is that of the parsed quantities. */
  lemma CompareValuesParsed(a: string, b: string, tolerance: real)
    requires ParseValue(a).Some? && ParseValue(b).Some?
    ensures var pa, pb := ParseValue(a).value, ParseValue(b).value;
      CompareValues(a, b, tolerance) == CompareParsed(pa.0, pa.1, pb.0, pb.1, tolerance)
  {
  }

  lemma CompareParsedReflexive(v: real, u: string, tolerance: real)
    requires tolerance > 0.0
    ensures CompareParsed(v, u, v, u, tolerance).Some? ==> CompareParsed(v, u, v, u, tolerance) == Some(0)
  {
    var n := BaseValue(v, u);
    if u != "" && n.Some? {
      RelativeDiffZero(n.value);
      assert TolerantCompare(n.value, n.value, tolerance) == 0;
    }
  }

  /** With a positive tolerance, a comparable value equals itself. */
  lemma CompareValuesReflexive(a: string, tolerance: real)
    requires tolerance > 0.0
    ensures CompareValues(a, a, tolerance).Some? ==> CompareValues(a, a, tolerance) == Some(0)
  {
    var pa := ParseValue(a);
    if pa.Some? {
      var v, u := pa.value.0, pa.value.1;
      assert CompareValues(a, a, tolerance) == CompareParsed(v, u, v, u, tolerance);
      CompareParsedReflexive(v, u, tolerance);
    }
  }

  /** With a tolerance of zero or less, a value with a unit compares as greater than itself. */
  lemma NonPositiveToleranceNeverEqual(v: real, u: string, tolerance: real)
    requires tolerance <= 0.0 && u != "" && GetUnitCategory(u).Some?
    ensures CompareParsed(v, u, v, u, tolerance) == Some(1)
  {
    var n := NormalizeValue(v, u);
    assert BaseValue(v, u) == n && n.Some?;
    RelativeDiffZero(n.value);
    assert TolerantCompare(n.value, n.value, tolerance) == 1;
  }
}
