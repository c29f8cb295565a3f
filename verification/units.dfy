/**
 * The y-axis unit label chosen from the variable name: lower-case the name,
 * then "temp" gives degrees Celsius, otherwise "sea" or "msl" gives metres,
 * otherwise no label.
 */
module Units {
  import opened Text

  const Celsius: string := "\U{00B0}C"
  const Metres: string := "m"
  const NoUnit: string := ""

  /**
   * The branch chain of the dashboard. For every name it agrees with the
   * ordered rule table: the first rule whose needle the lower-cased name
   * contains gives the unit.
   */
  function UnitFor(variable: string): (unit: string)
    ensures unit == FirstMatch(UnitRules, ToLower(variable))
    ensures unit == Celsius <==> Includes(ToLower(variable), "temp")
    ensures unit == Metres <==>
      !Includes(ToLower(variable), "temp")
      && (Includes(ToLower(variable), "sea") || Includes(ToLower(variable), "msl"))
    ensures unit == NoUnit || unit == Celsius || unit == Metres
  {
    var name := ToLower(variable);
    var rest := [Rule("sea", Metres), Rule("msl", Metres)];
    assert UnitRules[1..] == rest;
    assert rest[1..] == [Rule("msl", Metres)];
    assert [Rule("msl", Metres)][1..] == [];
    assert !Includes(name, "temp") && !Includes(name, "sea") ==>
      FirstMatch(UnitRules, name) == FirstMatch([Rule("msl", Metres)], name);
    if Includes(name, "temp") then Celsius
    else if Includes(name, "sea") || Includes(name, "msl") then Metres
    else NoUnit
  }

  /** A substring rule: a name containing `needle` gets `unit`. */
  datatype Rule = Rule(needle: string, unit: string)

  /** The rules as an ordered table; the first that matches wins. */
  const UnitRules: seq<Rule> := [Rule("temp", Celsius), Rule("sea", Metres), Rule("msl", Metres)]

  /** The unit of the first rule whose needle the (lower-cased) name contains, or no unit. */
  function FirstMatch(rules: seq<Rule>, name: string): (unit: string)
    ensures unit == NoUnit || exists k :: 0 <= k < |rules| && rules[k].unit == unit
  {
    if |rules| == 0 then NoUnit
    else if Includes(name, rules[0].needle) then rules[0].unit
    else FirstMatch(rules[1..], name)
  }

  /** Matching ignores case: a name and its lower-cased form get the same unit. */
  lemma UnitForIgnoresCase(variable: string)
    ensures UnitFor(ToLower(variable)) == UnitFor(variable)
  {
    ToLowerIdempotent(variable);
  }

  /** The rules are tried in order: a name with "temp" gets degrees even if it also names the sea. */
  lemma TemperatureRuleComesFirst(variable: string)
    requires Includes(ToLower(variable), "temp")
    requires Includes(ToLower(variable), "sea")
    ensures UnitFor(variable) == Celsius
  {
  }

  /** "Temp2m" gets degrees Celsius. */
  lemma UnitOfTemp2m()
    ensures UnitFor("Temp2m") == Celsius
  {
    assert ToLower("Temp2m") == "temp2m";
    assert OccursAt("temp2m", "temp", 0);
  }

  /** "MSLP" (mean sea-level pressure) gets metres. */
  lemma UnitOfMslp()
    ensures UnitFor("MSLP") == Metres
  {
    assert ToLower("MSLP") == "mslp";
    FirstCharAbsent("mslp", "temp");
    assert OccursAt("mslp", "msl", 0);
  }

  /** "Wind10m" matches no rule and gets no unit. */
  lemma UnitOfWind10m()
    ensures UnitFor("Wind10m") == NoUnit
  {
    var lower := ToLower("Wind10m");
    assert lower == "wind10m";
    NoRuleMatchesWind(lower);
  }

  /** None of the rule needles occurs in "wind10m". */
  lemma NoRuleMatchesWind(lower: string)
    requires lower == "wind10m"
    ensures !Includes(lower, "temp") && !Includes(lower, "sea") && !Includes(lower, "msl")
  {
    FirstCharAbsent(lower, "temp");
    FirstCharAbsent(lower, "sea");
    FirstCharAbsent(lower, "msl");
  }

  /** "seatemp" contains both "sea" and "temp"; the earlier rule wins. */
  lemma UnitOfSeatemp()
    ensures UnitFor("seatemp") == Celsius
  {
    assert ToLower("seatemp") == "seatemp";
    assert OccursAt("seatemp", "temp", 3);
  }

  /** A needle whose first character starts no window of `s` is not in `s`. */
  lemma FirstCharAbsent(s: string, needle: string)
    requires |needle| > 0
    requires forall i :: 0 <= i && i + |needle| <= |s| ==> s[i] != needle[0]
    ensures !Includes(s, needle)
  {
  }
}
