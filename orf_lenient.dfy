/**
 * `app/modules/ORF/single_organism_optimization_method.py`: the copy that
 * only warns about the wanted count, optimises for the first wanted
 * organism, and looks the profile up by the index's lower-cased value.
 */
module OrfLenient {
  import opened Common
  import opened Text
  import opened OrfCore
  import OrfStrict

  /** `f"{optimization_cub_index.value.lower()}_profile"`. */
  function ProfileKey(index: CubIndex): string {
    ToLower(index.value) + "_profile"
  }

  /** What `_get_optimal_codons` returns or raises: with no wanted organism,
    * `wanted_organisms[0]` raises an IndexError. */
  function OptimalCodonsFor(organisms: seq<OrfOrganism>, index: CubIndex, synonymous: map<char, seq<string>>)
    : (r: Result<map<char, string>, OrfError>)
    ensures Wanted(organisms) == [] <==> r == Failure(NoWantedOrganism)
  {
    var wanted := Wanted(organisms);
    if |wanted| == 0 then Failure(NoWantedOrganism)
    else OptimalCodons(ProfileOf(wanted[0], ProfileKey(index)), synonymous)
  }

  /** `_get_optimal_codons`; the warning it logs is not modelled. */
  method GetOptimalCodons(organisms: seq<OrfOrganism>, index: CubIndex, synonymous: map<char, seq<string>>)
    returns (r: Result<map<char, string>, OrfError>)
    ensures r == OptimalCodonsFor(organisms, index, synonymous)
  {
    var wanted := Wanted(organisms);
    if |wanted| == 0 {
      return Failure(NoWantedOrganism);
    }
    var wantedOrganism := wanted[0];
    r := FillOptimalCodons(ProfileOf(wantedOrganism, ProfileKey(index)), synonymous);
  }

  /** What `optimize_sequence` returns or raises; `protein` is
    * `translate(target_gene)`. */
  function OptimizedSequence(gene: string, protein: seq<char>, organisms: seq<OrfOrganism>, index: CubIndex,
                             skipped: nat, synonymous: map<char, seq<string>>): Result<string, OrfError>
  {
    match OptimalCodonsFor(organisms, index, synonymous)
    case Failure(e) => Failure(e)
    case Success(table) => Optimized(gene, protein, table, skipped, KeepsStop(protein, index))
  }

  /** `optimize_sequence`. */
  method OptimizeSequence(gene: string, protein: seq<char>, organisms: seq<OrfOrganism>, index: CubIndex,
                          skipped: nat, synonymous: map<char, seq<string>>)
    returns (r: Result<string, OrfError>)
    ensures r == OptimizedSequence(gene, protein, organisms, index, skipped, synonymous)
  {
    var codons := GetOptimalCodons(organisms, index, synonymous);
    if codons.Failure? {
      return Failure(codons.error);
    }
    r := RewriteAndPatch(gene, protein, codons.value, skipped, index);
  }

  /** The first wanted organism is used whatever the wanted count: the
    * organisms after it do not matter. */
  lemma FirstWantedDecides(organisms: seq<OrfOrganism>, others: seq<OrfOrganism>, index: CubIndex,
                           synonymous: map<char, seq<string>>)
    requires Wanted(organisms) != []
    ensures OptimalCodonsFor(organisms + others, index, synonymous) == OptimalCodonsFor(organisms, index, synonymous)
  {
    WantedAppend(organisms, others);
  }

  /** With exactly one wanted organism, and an index whose `str()` is its
    * lower-cased value, both copies compute the same gene. */
  lemma AgreesWithStrict(gene: string, protein: seq<char>, organisms: seq<OrfOrganism>, index: CubIndex,
                         skipped: nat, synonymous: map<char, seq<string>>)
    requires |Wanted(organisms)| == 1 && index.display == ToLower(index.value)
    ensures OptimizedSequence(gene, protein, organisms, index, skipped, synonymous)
      == OrfStrict.OptimizedSequence(gene, protein, organisms, index, skipped, synonymous)
  {
  }

  /** With more than one wanted organism the strict copy raises where this
    * one goes on with the first. */
  lemma DiffersFromStrict(gene: string, protein: seq<char>, organisms: seq<OrfOrganism>, index: CubIndex,
                          skipped: nat, synonymous: map<char, seq<string>>)
    requires |Wanted(organisms)| > 1
    ensures OrfStrict.OptimizedSequence(gene, protein, organisms, index, skipped, synonymous)
      == Failure(WrongWantedCount(|Wanted(organisms)|))
    ensures OptimizedSequence(gene, protein, organisms, index, skipped, synonymous).Success? <==>
      OptimalCodons(ProfileOf(Wanted(organisms)[0], ProfileKey(index)), synonymous).Success?
      && Rewrite(gene, protein, OptimalCodons(ProfileOf(Wanted(organisms)[0], ProfileKey(index)), synonymous).value,
                 skipped, |protein|).Success?
  {
  }

  /** The profile is chosen by the lower-cased index value, so the case of
    * that value does not matter. */
  lemma ProfileKeyCaseInsensitive(index: CubIndex, other: CubIndex)
    requires ToLower(index.value) == ToLower(other.value)
    ensures ProfileKey(index) == ProfileKey(other)
  {
  }
}
