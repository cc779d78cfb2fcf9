/**
 * Resource-type colouring shared by the interactive, dynamic and matplotlib
 * scripts: the three carry the same colour table and the same chain of
 * substring tests. The type text is upper-cased; an exact key of the table
 * wins; otherwise the first substring rule, in the fixed order, that matches
 * gives the colour; otherwise the colour of OTHER.
 */
module ResourceColours {
  import opened Wrappers
  import opened Strings

  const ResourceColors: map<string, string> := map[
    "WIND" := "#32CD32",
    "PVGR" := "#FFD700",
    "SOLAR" := "#FFD700",
    "HYDRO" := "#4169E1",
    "NUCLEAR" := "#8A2BE2",
    "COAL" := "#8B4513",
    "GAS" := "#FF4500",
    "STEAM" := "#FF6347",
    "CC" := "#FF8C00",
    "GT" := "#FFA500",
    "BIOMASS" := "#228B22",
    "LANDFILL" := "#556B2F",
    "PWRSTR" := "#9932CC",
    "ESR" := "#9932CC",
    "DC" := "#FF1493",
    "SYNC_COND" := "#708090",
    "OTHER" := "#696969",
    "UNKNOWN" := "#A9A9A9"]

  /** One `elif` of the chain: any of `needles` in the type selects the colour of `key`. */
  datatype SubstringRule = SubstringRule(needles: seq<string>, key: string)

  /** The `elif` chain, in the order the scripts test it. */
  const SubstringRules: seq<SubstringRule> := [
    SubstringRule(["WIND"], "WIND"),
    SubstringRule(["SOLAR", "PV"], "PVGR"),
    SubstringRule(["HYDRO"], "HYDRO"),
    SubstringRule(["NUCLEAR"], "NUCLEAR"),
    SubstringRule(["COAL"], "COAL"),
    SubstringRule(["GAS", "NG"], "GAS"),
    SubstringRule(["CC", "COMBINED"], "CC"),
    SubstringRule(["GT", "TURBINE"], "GT"),
    SubstringRule(["STEAM"], "STEAM"),
    SubstringRule(["BIOMASS", "BIO"], "BIOMASS"),
    SubstringRule(["BESS", "BATTERY", "STORAGE"], "PWRSTR")]

  predicate RuleMatches(rule: SubstringRule, u: string)
  {
    exists n :: n in rule.needles && Contains(u, n)
  }

  /** Index of the first rule at or after `from` that matches `u`. */
  function FirstMatchingRule(u: string, from: nat): (r: Option<nat>)
    requires from <= |SubstringRules|
    ensures r.Some? ==>
      && from <= r.value < |SubstringRules|
      && RuleMatches(SubstringRules[r.value], u)
      && forall j :: from <= j < r.value ==> !RuleMatches(SubstringRules[j], u)
    ensures r.None? ==> forall j :: from <= j < |SubstringRules| ==> !RuleMatches(SubstringRules[j], u)
    decreases |SubstringRules| - from
  {
    if from == |SubstringRules| then None
    else if RuleMatches(SubstringRules[from], u) then Some(from)
    else FirstMatchingRule(u, from + 1)
  }

  lemma RuleKeysInTable()
    ensures forall i :: 0 <= i < |SubstringRules| ==> SubstringRules[i].key in ResourceColors
  {
  }

  /** The colour chosen for an upper-cased type text. */
  function ColorForText(u: string): (c: string)
    ensures c in ResourceColors.Values
    ensures u in ResourceColors ==> c == ResourceColors[u]
    ensures u !in ResourceColors ==>
      forall i :: 0 <= i < |SubstringRules| && RuleMatches(SubstringRules[i], u)
                  && (forall j :: 0 <= j < i ==> !RuleMatches(SubstringRules[j], u))
                  ==> c == ResourceColors[SubstringRules[i].key]
    ensures u !in ResourceColors && (forall i :: 0 <= i < |SubstringRules| ==> !RuleMatches(SubstringRules[i], u))
      ==> c == ResourceColors["OTHER"]
  {
    RuleKeysInTable();
    if u in ResourceColors then ResourceColors[u]
    else match FirstMatchingRule(u, 0)
      case Some(i) => ResourceColors[SubstringRules[i].key]
      case None => ResourceColors["OTHER"]
  }

  /** `str(value)` of a resource-type cell; an empty cell is a NaN and prints as "nan". */
  function TypeText(t: Option<string>): string
  {
    match t
    case Some(s) => s
    case None => "nan"
  }

  /** The needles of the rules, each at least two letters long, none a part of "NAN". */
  lemma NeedleNotInNan(n: string)
    requires |n| >= 2 && n != "NA" && n != "AN" && n != "NAN"
    ensures !Contains("", n) && !Contains("NAN", n)
  {
    assert !Contains("NAN"[1..], n);
  }

  /** Neither an empty text nor the text of a NaN matches any key or rule. */
  lemma NoRuleForBlankOrNan(u: string)
    requires u == "" || u == "NAN"
    ensures u !in ResourceColors
    ensures forall i :: 0 <= i < |SubstringRules| ==> !RuleMatches(SubstringRules[i], u)
  {
    forall i | 0 <= i < |SubstringRules| ensures !RuleMatches(SubstringRules[i], u) {
      forall n | n in SubstringRules[i].needles ensures !Contains(u, n) {
        NeedleNotInNan(n);
      }
    }
  }

  /** `get_color_for_resource`: upper-case `str(resource_type)`, then look it up. */
  function ColorForResource(t: Option<string>): (c: string)
    ensures c in ResourceColors.Values
    ensures Upper(TypeText(t)) in ResourceColors ==> c == ResourceColors[Upper(TypeText(t))]
    ensures t.None? ==> c == ResourceColors["OTHER"]
  {
    assert Upper("nan") == "NAN";
    NoRuleForBlankOrNan("NAN");
    ColorForText(Upper(TypeText(t)))
  }

  /**
   * The lookup ignores case: two spellings that upper-case alike get the same
   * colour, and so does the upper-cased spelling itself.
   */
  lemma ColorIgnoresCase(a: string, b: string)
    requires Upper(a) == Upper(b)
    ensures ColorForResource(Some(a)) == ColorForResource(Some(b))
    ensures ColorForResource(Some(a)) == ColorForResource(Some(Upper(a)))
  {
    UpperIdempotent(a);
  }

  /**
   * Rule priority on types that are not table keys: any type containing WIND
   * is coloured as wind, and a type containing BESS, BATTERY or STORAGE gets
   * the storage colour only when no earlier rule's needle occurs in it.
   */
  lemma SubstringRulePriority(u: string)
    requires u !in ResourceColors
    ensures Contains(u, "WIND") ==> ColorForText(u) == ResourceColors["WIND"]
    ensures (Contains(u, "BESS") || Contains(u, "BATTERY") || Contains(u, "STORAGE"))
      && (forall j :: 0 <= j < |SubstringRules| - 1 ==> !RuleMatches(SubstringRules[j], u))
      ==> ColorForText(u) == ResourceColors["PWRSTR"]
  {
    if Contains(u, "WIND") {
      assert RuleMatches(SubstringRules[0], u) by {
        assert "WIND" in SubstringRules[0].needles;
      }
    }
    if (Contains(u, "BESS") || Contains(u, "BATTERY") || Contains(u, "STORAGE"))
      && (forall j :: 0 <= j < |SubstringRules| - 1 ==> !RuleMatches(SubstringRules[j], u)) {
      var last := |SubstringRules| - 1;
      assert RuleMatches(SubstringRules[last], u) by {
        assert SubstringRules[last].needles == ["BESS", "BATTERY", "STORAGE"];
      }
    }
  }
}
