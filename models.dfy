/**
 * The fixed catalog of candidate curve families, in the order in which
 * `perform_regression` walks the `models` dictionary.
 */
module Models {
  import opened Wrappers

  datatype ModelKind = Linear | Exponential | Logarithmic | PowerLaw

  /** Iteration order of the catalog dictionary. */
  const CATALOG: seq<ModelKind> := [Linear, Exponential, Logarithmic, PowerLaw]

  /** The dictionary key of each model. */
  function Name(k: ModelKind): string
  {
    match k
    case Linear => "Linear"
    case Exponential => "Exponential"
    case Logarithmic => "Logarithmic"
    case PowerLaw => "Power Law"
  }

  /** Which model a name denotes, if any: the branch that a name selects. */
  function KindOf(name: string): (r: Option<ModelKind>)
    ensures r.Some? ==> Name(r.value) == name
    ensures r.None? ==> forall k :: Name(k) != name
  {
    if name == "Linear" then Some(Linear)
    else if name == "Exponential" then Some(Exponential)
    else if name == "Logarithmic" then Some(Logarithmic)
    else if name == "Power Law" then Some(PowerLaw)
    else None
  }

  lemma KindOfName(k: ModelKind)
    ensures KindOf(Name(k)) == Some(k)
  {
  }

  /** Position of a model in the catalog. */
  function Rank(k: ModelKind): (n: nat)
    ensures n < |CATALOG| && CATALOG[n] == k
  {
    match k
    case Linear => 0
    case Exponential => 1
    case Logarithmic => 2
    case PowerLaw => 3
  }

  /** Position in the catalog of the model a name denotes; |CATALOG| for a foreign name. */
  function NameRank(name: string): (n: nat)
    ensures n <= |CATALOG|
    ensures n < |CATALOG| <==> KindOf(name).Some?
  {
    match KindOf(name)
    case Some(k) => Rank(k)
    case None => |CATALOG|
  }

  /** Every model occurs once in the catalog, under its own name. */
  lemma CatalogNamesDistinct(i: nat, j: nat)
    requires i < |CATALOG| && j < |CATALOG|
    ensures NameRank(Name(CATALOG[i])) == i
    ensures i != j ==> Name(CATALOG[i]) != Name(CATALOG[j])
  {
  }
}
