/**
 * `modules/ORF/single_organism_optimization_method.py`: the copy that
 * raises unless exactly one organism is the wanted one, and looks the
 * profile up by the index's `str()`.
 */
module OrfStrict {
  import opened Common
  import opened OrfCore

  /** `f"{optimization_cub_index}_profile"`. */
  function ProfileKey(index: CubIndex): string {
    index.display + "_profile"
  }

  /** What `_get_optimal_codons` returns or raises. */
  function OptimalCodonsFor(organisms: seq<OrfOrganism>, index: CubIndex, synonymous: map<char, seq<string>>)
    : (r: Result<map<char, string>, OrfError>)
    ensures |Wanted(organisms)| != 1 <==> r.Failure? && r.error.WrongWantedCount?
    ensures r.Failure? && r.error.WrongWantedCount? ==> r.error.count == |Wanted(organisms)|
  {
    var wanted := Wanted(organisms);
    if |wanted| != 1 then Failure(WrongWantedCount(|wanted|))
    else OptimalCodons(ProfileOf(wanted[0], ProfileKey(index)), synonymous)
  }

  /** `_get_optimal_codons`. */
  method GetOptimalCodons(organisms: seq<OrfOrganism>, index: CubIndex, synonymous: map<char, seq<string>>)
    returns (r: Result<map<char, string>, OrfError>)
    ensures r == OptimalCodonsFor(organisms, index, synonymous)
  {
    var wanted := Wanted(organisms);
    if |wanted| != 1 {
      return Failure(WrongWantedCount(|wanted|));
    }
    var wantedOrganism := wanted[0];
    r := FillOptimalCodons(ProfileOf(wantedOrganism, ProfileKey(index)), synonymous);
  }

  /** What `optimize_sequence` returns or raises; `protein` is
    * `translate(target_gene)`. */
  function OptimizedSequence(gene: string, protein: seq<char>, organisms: seq<OrfOrganism>, index: CubIndex,
                             skipped: nat, synonymous: map<char, seq<string>>): Result<string, OrfError>
  {
    match OptimalCodonsFor(organisms, index, synonymous)
    case Failure(e) => Failure(e)
    case Success(table) => Optimized(gene, protein, table, skipped, KeepsStop(protein, index))
  }

  /** `optimize_sequence`. `tuningParam` and `shouldDedupCodons` are accepted
    * and ignored: the result is a function of the other inputs alone. */
  method OptimizeSequence(gene: string, protein: seq<char>, organisms: seq<OrfOrganism>, index: CubIndex,
                          tuningParam: real, skipped: nat, shouldDedupCodons: bool,
                          synonymous: map<char, seq<string>>)
    returns (r: Result<string, OrfError>)
    ensures r == OptimizedSequence(gene, protein, organisms, index, skipped, synonymous)
  {
    var codons := GetOptimalCodons(organisms, index, synonymous);
    if codons.Failure? {
      return Failure(codons.error);
    }
    r := RewriteAndPatch(gene, protein, codons.value, skipped, index);
  }

  /** A successful run had exactly one wanted organism, and its every
    * rewritten position holds a synonymous codon of greatest weight in that
    * organism's profile. */
  lemma OptimizedCodons(gene: string, protein: seq<char>, organisms: seq<OrfOrganism>, index: CubIndex,
                        skipped: nat, synonymous: map<char, seq<string>>, i: nat)
    requires OptimizedSequence(gene, protein, organisms, index, skipped, synonymous).Success?
    requires skipped <= i < |protein|
    ensures |Wanted(organisms)| == 1
    ensures var table := OptimalCodonsFor(organisms, index, synonymous).value;
      var profile := ProfileOf(Wanted(organisms)[0], ProfileKey(index));
      && protein[i] in synonymous && table[protein[i]] in synonymous[protein[i]]
      && (exists w :: (table[protein[i]], w) in profile
            && forall e :: e in profile && e.0 in synonymous[protein[i]] ==> e.1 <= w)
  {
    var table := OptimalCodonsFor(organisms, index, synonymous).value;
    RewriteSucceeds(gene, protein, table, skipped, |protein|);
    OptimalCodonIsBest(ProfileOf(Wanted(organisms)[0], ProfileKey(index)), synonymous, protein[i]);
  }

  /** With a synonymous-codon table consistent with the genetic code, the
    * optimised gene encodes the input's protein. */
  lemma OptimizedKeepsProtein(genetic: map<string, char>, gene: string, protein: seq<char>,
                              organisms: seq<OrfOrganism>, index: CubIndex,
                              skipped: nat, synonymous: map<char, seq<string>>)
    requires Encodes(genetic, gene, protein) && SynonymsEncode(genetic, synonymous)
    requires OptimizedSequence(gene, protein, organisms, index, skipped, synonymous).Success?
    ensures Encodes(genetic, OptimizedSequence(gene, protein, organisms, index, skipped, synonymous).value, protein)
  {
    var profile := ProfileOf(Wanted(organisms)[0], ProfileKey(index));
    OptimalCodonsEncode(genetic, profile, synonymous);
    OptimizedEncodes(genetic, gene, protein, OptimalCodonsFor(organisms, index, synonymous).value,
                     skipped, KeepsStop(protein, index));
  }
}
