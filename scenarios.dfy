/** The fixed catalog of demand scenarios. One is drawn at the start of the
    game and again before every later day; its multiplier scales the demand
    coefficient for that day. */
module Scenarios {

  /** The flavour text shown with a scenario. Its wording is not modelled:
      a narrative is known only by the catalog position it belongs to. */
  datatype Narrative = Narrative(index: nat)

  datatype Scenario = Scenario(name: string, narrative: Narrative, multiplier: real)

  /** The number of scenarios in the catalog. */
  const ScenarioCount: nat := 10

  /** The catalog entry at position `i`, in catalog order. */
  function ScenarioAt(i: nat): (sc: Scenario)
    requires i < ScenarioCount
    ensures sc.narrative == Narrative(i)
    ensures sc.multiplier > 0.0
  {
    match i
    case 0 => Scenario("Holiday Season", Narrative(0), 1.8)
    case 1 => Scenario("Economic Recession", Narrative(1), 0.6)
    case 2 => Scenario("New Competitor Opens", Narrative(2), 0.7)
    case 3 => Scenario("Successful Marketing Campaign", Narrative(3), 1.3)
    case 4 => Scenario("Back to School", Narrative(4), 0.8)
    case 5 => Scenario("Local Festival", Narrative(5), 1.5)
    case 6 => Scenario("Product Recall in Industry", Narrative(6), 0.65)
    case 7 => Scenario("Celebrity Endorsement", Narrative(7), 1.6)
    case 8 => Scenario("Rainy Weekend", Narrative(8), 1.2)
    case _ => Scenario("Supply Chain Issues", Narrative(9), 1.4)
  }

  /** No two catalog entries share a name. */
  lemma CatalogNamesDistinct(i: nat, j: nat)
    requires i < j < ScenarioCount
    ensures ScenarioAt(i).name != ScenarioAt(j).name
  {
  }

  /** `sc` is one of the catalog entries, the only values a draw can give. */
  ghost predicate InCatalog(sc: Scenario)
  {
    exists i: nat :: i < ScenarioCount && ScenarioAt(i) == sc
  }

  /** A day's recorded scenario name belongs to some catalog entry. */
  ghost predicate IsScenarioName(name: string)
  {
    exists i: nat :: i < ScenarioCount && ScenarioAt(i).name == name
  }

  /** Whatever scenario is drawn, it scales demand by a positive factor,
      and its name identifies it within the catalog. */
  lemma CatalogScenario(sc: Scenario)
    requires InCatalog(sc)
    ensures sc.multiplier > 0.0
    ensures IsScenarioName(sc.name)
    ensures forall other :: InCatalog(other) && other.name == sc.name ==> other == sc
  {
    var i: nat :| i < ScenarioCount && ScenarioAt(i) == sc;
    forall other | InCatalog(other) && other.name == sc.name
      ensures other == sc
    {
      var j: nat :| j < ScenarioCount && ScenarioAt(j) == other;
      if i < j {
        CatalogNamesDistinct(i, j);
      } else if j < i {
        CatalogNamesDistinct(j, i);
      }
    }
  }
}
