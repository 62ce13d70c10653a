/**
 * The overview page (`client/src/pages/Home.tsx`): the general statistics
 * over the list of dams and the three presentation functions for a dam's
 * risk category, which all split the categories into the same groups
 * {A, B}, {C}, {D, E} and a default.
 */
module Dashboard {
  import opened Wrappers

  /** The two columns of a dam the page reads; either may be null. */
  datatype Dam = Dam(categoriaRisco: Option<string>, danoPotencialAssociado: Option<string>)

  datatype Stats = Stats(total: nat, comRiscoAlto: nat, comRiscoMedio: nat, comRiscoBaixo: nat, comDanoAlto: nat)

  // ---------------------------------------------------------------------------
  // Array.prototype.filter
  // ---------------------------------------------------------------------------

  /** The elements of `s` that satisfy `p`, in their order. */
  function Filter<T>(s: seq<T>, p: T -> bool): (r: seq<T>)
    ensures |r| <= |s|
    ensures forall x :: x in r ==> x in s && p(x)
  {
    if s == [] then []
    else (if p(s[0]) then [s[0]] else []) + Filter(s[1..], p)
  }

  /** The filter keeps every element that satisfies `p` as often as it
      occurs, and nothing else. */
  lemma {:induction false} FilterKeepsMultiplicity<T>(s: seq<T>, p: T -> bool, x: T)
    ensures multiset(Filter(s, p))[x] == if p(x) then multiset(s)[x] else 0
  {
    if s != [] {
      FilterKeepsMultiplicity(s[1..], p, x);
      assert s == [s[0]] + s[1..];
    }
  }

  /** Two tests that agree on every element of `s` filter it alike. */
  lemma {:induction false} FilterCongruent<T>(s: seq<T>, p: T -> bool, q: T -> bool)
    requires forall i :: 0 <= i < |s| ==> p(s[i]) == q(s[i])
    ensures Filter(s, p) == Filter(s, q)
  {
    if s != [] {
      assert forall i :: 0 <= i < |s[1..]| ==> s[1..][i] == s[i + 1];
      FilterCongruent(s[1..], p, q);
    }
  }

  // ---------------------------------------------------------------------------
  // estatisticasGerais
  // ---------------------------------------------------------------------------

  predicate IsRiscoAlto(b: Dam) { b.categoriaRisco == Some("A") || b.categoriaRisco == Some("B") }
  predicate IsRiscoMedio(b: Dam) { b.categoriaRisco == Some("C") }
  predicate IsRiscoBaixo(b: Dam) { b.categoriaRisco == Some("D") || b.categoriaRisco == Some("E") }
  predicate IsDanoAlto(b: Dam) { b.danoPotencialAssociado == Some("Alto") }

  /** `estatisticasGerais`: null while the list is absent, otherwise the
      total and the four filtered counts. */
  function EstatisticasGerais(barragens: Option<seq<Dam>>): (s: Option<Stats>)
    ensures s.None? <==> barragens.None?
  {
    match barragens
    case None => None
    case Some(dams) =>
      Some(Stats(|dams|, |Filter(dams, IsRiscoAlto)|, |Filter(dams, IsRiscoMedio)|,
                 |Filter(dams, IsRiscoBaixo)|, |Filter(dams, IsDanoAlto)|))
  }

  /** Each count is the number of dams, with multiplicity, whose column
      holds one of the listed values. */
  lemma StatsCountMatchingDams(dams: seq<Dam>, b: Dam)
    ensures var s := EstatisticasGerais(Some(dams)).value;
      && s.total == |dams|
      && multiset(Filter(dams, IsRiscoAlto))[b] == (if b.categoriaRisco in {Some("A"), Some("B")} then multiset(dams)[b] else 0)
      && multiset(Filter(dams, IsRiscoMedio))[b] == (if b.categoriaRisco == Some("C") then multiset(dams)[b] else 0)
      && multiset(Filter(dams, IsRiscoBaixo))[b] == (if b.categoriaRisco in {Some("D"), Some("E")} then multiset(dams)[b] else 0)
      && multiset(Filter(dams, IsDanoAlto))[b] == (if b.danoPotencialAssociado == Some("Alto") then multiset(dams)[b] else 0)
  {
    FilterKeepsMultiplicity(dams, IsRiscoAlto, b);
    FilterKeepsMultiplicity(dams, IsRiscoMedio, b);
    FilterKeepsMultiplicity(dams, IsRiscoBaixo, b);
    FilterKeepsMultiplicity(dams, IsDanoAlto, b);
  }

  /** A category the three risk counts recognise. */
  predicate HasKnownCategory(b: Dam) {
    b.categoriaRisco.Some? && b.categoriaRisco.value in {"A", "B", "C", "D", "E"}
  }

  /** The three risk counts never exceed the total, and reach it exactly when
      every dam's category is one of A to E. */
  lemma {:induction false} RiskCountsBounded(dams: seq<Dam>)
    ensures var s := EstatisticasGerais(Some(dams)).value;
      s.comRiscoAlto + s.comRiscoMedio + s.comRiscoBaixo <= s.total
    ensures var s := EstatisticasGerais(Some(dams)).value;
      s.comRiscoAlto + s.comRiscoMedio + s.comRiscoBaixo == s.total <==>
      forall i :: 0 <= i < |dams| ==> HasKnownCategory(dams[i])
  {
    if dams != [] {
      var rest := dams[1..];
      RiskCountsBounded(rest);
      assert forall i :: 0 <= i < |rest| ==> rest[i] == dams[i + 1];
      if forall i :: 0 <= i < |dams| ==> HasKnownCategory(dams[i]) {
        assert forall i :: 0 <= i < |rest| ==> HasKnownCategory(rest[i]);
      } else {
        var j :| 0 <= j < |dams| && !HasKnownCategory(dams[j]);
        if j > 0 {
          assert !HasKnownCategory(rest[j - 1]);
        }
      }
    }
  }

  // ---------------------------------------------------------------------------
  // getRiscoLabel, getRiscoColor, getRiscoIcon
  // ---------------------------------------------------------------------------

  /** The three groups the `switch` statements share, and their default. */
  datatype RiskGroup = High | Medium | Low | Other

  function GroupOf(risco: string): RiskGroup {
    if risco == "A" || risco == "B" then High
    else if risco == "C" then Medium
    else if risco == "D" || risco == "E" then Low
    else Other
  }

  /** The group of a dam whose category may be null. */
  function DamGroup(b: Dam): RiskGroup {
    if b.categoriaRisco.Some? then GroupOf(b.categoriaRisco.value) else Other
  }

  predicate InHighGroup(b: Dam) { DamGroup(b) == High }
  predicate InMediumGroup(b: Dam) { DamGroup(b) == Medium }
  predicate InLowGroup(b: Dam) { DamGroup(b) == Low }

  /** The count tests and the groups agree on each dam. */
  lemma CountTestsAreGroups(b: Dam)
    ensures IsRiscoAlto(b) == InHighGroup(b)
    ensures IsRiscoMedio(b) == InMediumGroup(b)
    ensures IsRiscoBaixo(b) == InLowGroup(b)
  {
  }

  /** The risk counts are the sizes of the first three groups. */
  lemma StatsFollowGroups(dams: seq<Dam>)
    ensures var s := EstatisticasGerais(Some(dams)).value;
      && s.comRiscoAlto == |Filter(dams, InHighGroup)|
      && s.comRiscoMedio == |Filter(dams, InMediumGroup)|
      && s.comRiscoBaixo == |Filter(dams, InLowGroup)|
  {
    forall i | 0 <= i < |dams| {
      CountTestsAreGroups(dams[i]);
    }
    FilterCongruent(dams, IsRiscoAlto, InHighGroup);
    FilterCongruent(dams, IsRiscoMedio, InMediumGroup);
    FilterCongruent(dams, IsRiscoBaixo, InLowGroup);
  }

  const LABEL_HIGH: string := "Alto"
  const LABEL_MEDIUM: string := "Médio"
  const LABEL_LOW: string := "Baixo"

  function RiscoLabel(risco: string): string {
    match GroupOf(risco)
    case High => LABEL_HIGH
    case Medium => LABEL_MEDIUM
    case Low => LABEL_LOW
    case Other => risco
  }

  // Each class list is written as two literals so that its leading characters can be read off.
  const COLOR_HIGH: string := "bg-red-100 " + "text-red-800 border-red-200 dark:bg-red-950 dark:text-red-200 dark:border-red-800"
  const COLOR_MEDIUM: string := "bg-yellow-100 " + "text-yellow-800 border-yellow-200 dark:bg-yellow-950 dark:text-yellow-200 dark:border-yellow-800"
  const COLOR_LOW: string := "bg-green-100 " + "text-green-800 border-green-200 dark:bg-green-950 dark:text-green-200 dark:border-green-800"
  const COLOR_OTHER: string := "bg-gray-100 " + "text-gray-800 border-gray-200 dark:bg-gray-800 dark:text-gray-200 dark:border-gray-700"

  function RiscoColor(risco: string): string {
    match GroupOf(risco)
    case High => COLOR_HIGH
    case Medium => COLOR_MEDIUM
    case Low => COLOR_LOW
    case Other => COLOR_OTHER
  }

  /** The icon components the page renders. */
  datatype Icon = XCircle | AlertTriangle | CheckCircle | AlertCircle

  function RiscoIcon(risco: string): Icon {
    match GroupOf(risco)
    case High => XCircle
    case Medium => AlertTriangle
    case Low => CheckCircle
    case Other => AlertCircle
  }

  /** The label of each category, with anything outside A to E passed
      through unchanged. */
  lemma RiscoLabelCases(risco: string)
    ensures risco in {"A", "B"} ==> RiscoLabel(risco) == "Alto"
    ensures risco == "C" ==> RiscoLabel(risco) == "Médio"
    ensures risco in {"D", "E"} ==> RiscoLabel(risco) == "Baixo"
    ensures risco !in {"A", "B", "C", "D", "E"} ==> RiscoLabel(risco) == risco
  {
  }

  /** The class list of each category, as the colour `switch` gives it. */
  lemma RiscoColorCases(risco: string)
    ensures risco in {"A", "B"} ==> RiscoColor(risco) == COLOR_HIGH
    ensures risco == "C" ==> RiscoColor(risco) == COLOR_MEDIUM
    ensures risco in {"D", "E"} ==> RiscoColor(risco) == COLOR_LOW
    ensures risco !in {"A", "B", "C", "D", "E"} ==> RiscoColor(risco) == COLOR_OTHER
  {
  }

  /** The icon of each category, as the icon `switch` lists it. */
  lemma RiscoIconCases(risco: string)
    ensures risco in {"A", "B"} ==> RiscoIcon(risco) == XCircle
    ensures risco == "C" ==> RiscoIcon(risco) == AlertTriangle
    ensures risco in {"D", "E"} ==> RiscoIcon(risco) == CheckCircle
    ensures risco !in {"A", "B", "C", "D", "E"} ==> RiscoIcon(risco) == AlertCircle
  {
  }

  /** Label, colour and icon depend on the category only through its group,
      and colour and icon tell the four groups apart. */
  lemma PresentationFollowsGroup(r: string, q: string)
    ensures GroupOf(r) == GroupOf(q) && GroupOf(r) != Other ==>
      RiscoLabel(r) == RiscoLabel(q) && RiscoColor(r) == RiscoColor(q) && RiscoIcon(r) == RiscoIcon(q)
    ensures GroupOf(r) == GroupOf(q) ==> RiscoColor(r) == RiscoColor(q) && RiscoIcon(r) == RiscoIcon(q)
    ensures RiscoIcon(r) == RiscoIcon(q) <==> GroupOf(r) == GroupOf(q)
    ensures RiscoColor(r) == RiscoColor(q) <==> GroupOf(r) == GroupOf(q)
  {
    assert COLOR_HIGH[3] == 'r' && COLOR_MEDIUM[3] == 'y';
    assert COLOR_LOW[3] == 'g' && COLOR_LOW[5] == 'e';
    assert COLOR_OTHER[3] == 'g' && COLOR_OTHER[5] == 'a';
  }

  /** The label alone does not identify the group: the default case passes
      "Alto" through, so an unknown category spelt "Alto" is labelled like A. */
  lemma LabelDoesNotIdentifyGroup()
    ensures GroupOf("Alto") == Other && RiscoLabel("Alto") == RiscoLabel("A")
  {
  }
}
