/**
 * The single-organism ORF step shared by both copies of
 * `single_organism_optimization_method.py`: choose, for every amino acid,
 * the synonymous codon the wanted organism uses most, then rewrite the gene
 * codon by codon after the skipped prefix.
 *
 * `translate`, `synonymous_codons` and the organisms' CUB profiles are not
 * part of this model: the protein, the synonymous-codon table and the
 * profiles are parameters. Amino acids are single characters.
 */
module OrfCore {
  import opened Common
  import opened Text

  /** A CUB profile: a dict codon -> weight, in its iteration order. */
  type Profile = seq<(string, real)>

  /** What the step can raise. */
  datatype OrfError =
    | WrongWantedCount(count: nat)     // ValueError of the strict copy
    | NoWantedOrganism                 // IndexError of `wanted_organisms[0]`
    | EmptyCandidates                  // ValueError of `max` on an empty dict
    | MissingAminoAcid(aa: char)       // KeyError of `aa_to_optimal_codon[aa]`

  /** The organism fields the step reads: `is_optimized` and the profiles,
    * looked up by attribute name. */
  datatype OrfOrganism = OrfOrganism(isOptimized: bool, profiles: map<string, Profile>)

  /** `ORFOptimizationCubIndex`: `display` is its `str()`, `value` its `.value`. */
  datatype CubIndex = CubIndex(display: string, value: string, isTrnaAdaptationIndex: bool)

  /** `[o for o in organisms if o.is_optimized]`. */
  function Wanted(organisms: seq<OrfOrganism>): (r: seq<OrfOrganism>)
    ensures |r| <= |organisms|
    ensures forall o :: o in r <==> o in organisms && o.isOptimized
  {
    if organisms == [] then []
    else (if organisms[0].isOptimized then [organisms[0]] else []) + Wanted(organisms[1..])
  }

  /** Filtering a concatenation filters each part. */
  lemma {:induction false} WantedAppend(a: seq<OrfOrganism>, b: seq<OrfOrganism>)
    ensures Wanted(a + b) == Wanted(a) + Wanted(b)
  {
    if a == [] {
      assert a + b == b;
    } else {
      assert (a + b)[0] == a[0];
      assert (a + b)[1..] == a[1..] + b;
      WantedAppend(a[1..], b);
      var head := if a[0].isOptimized then [a[0]] else [];
      assert head + (Wanted(a[1..]) + Wanted(b)) == (head + Wanted(a[1..])) + Wanted(b);
    }
  }

  /** `getattr(organism, key, {})`. */
  function ProfileOf(organism: OrfOrganism, key: string): Profile {
    if key in organism.profiles then organism.profiles[key] else []
  }

  /** `{codon: weight for codon, weight in cub_profile.items() if codon in codons}`,
    * in the profile's order. */
  function Candidates(profile: Profile, codons: seq<string>): (r: Profile)
    ensures |r| <= |profile|
  {
    if profile == [] then []
    else (if profile[0].0 in codons then [profile[0]] else []) + Candidates(profile[1..], codons)
  }

  /** The candidates are exactly the profile entries whose codon is synonymous. */
  lemma {:induction false} CandidateEntries(profile: Profile, codons: seq<string>, e: (string, real))
    ensures e in Candidates(profile, codons) <==> e in profile && e.0 in codons
  {
    if profile != [] {
      CandidateEntries(profile[1..], codons, e);
      assert e in profile <==> e == profile[0] || e in profile[1..];
    }
  }

  /** The position `max(candidates, key=candidates.get)` returns: the first
    * entry of greatest weight, as Python's scan keeps the earlier of equals. */
  function {:induction false} FirstMax(candidates: Profile): (k: nat)
    requires candidates != []
    ensures k < |candidates|
    ensures forall j :: 0 <= j < |candidates| ==> candidates[j].1 <= candidates[k].1
    ensures forall j :: 0 <= j < k ==> candidates[j].1 < candidates[k].1
  {
    if |candidates| == 1 then 0
    else
      var n := |candidates| - 1;
      var k := FirstMax(candidates[..n]);
      assert forall j :: 0 <= j < n ==> candidates[..n][j] == candidates[j];
      if candidates[n].1 > candidates[k].1 then n else k
  }

  function BestCodon(candidates: Profile): string
    requires candidates != []
  {
    candidates[FirstMax(candidates)].0
  }

  /** The result of filling `aa_to_optimal_codon`: a ValueError when some
    * amino acid has no candidate codon in the profile. */
  function OptimalCodons(profile: Profile, synonymous: map<char, seq<string>>): (r: Result<map<char, string>, OrfError>)
    ensures r.Failure? ==> r.error == EmptyCandidates
    ensures r.Success? ==> r.value.Keys == synonymous.Keys
  {
    if exists aa :: aa in synonymous && Candidates(profile, synonymous[aa]) == [] then Failure(EmptyCandidates)
    else Success(map aa | aa in synonymous :: BestCodon(Candidates(profile, synonymous[aa])))
  }

  /** The step raises exactly when some amino acid has no synonymous codon in
    * the profile. */
  lemma OptimalCodonsFail(profile: Profile, synonymous: map<char, seq<string>>)
    ensures OptimalCodons(profile, synonymous).Failure? <==>
      exists aa :: aa in synonymous && forall e :: e in profile ==> e.0 !in synonymous[aa]
  {
    forall aa | aa in synonymous
      ensures Candidates(profile, synonymous[aa]) == [] <==> forall e :: e in profile ==> e.0 !in synonymous[aa]
    {
      var candidates := Candidates(profile, synonymous[aa]);
      forall e | e in profile ensures candidates == [] ==> e.0 !in synonymous[aa] {
        CandidateEntries(profile, synonymous[aa], e);
      }
      if candidates != [] {
        CandidateEntries(profile, synonymous[aa], candidates[0]);
      }
    }
  }

  /** Each chosen codon is a synonymous codon present in the profile, and no
    * other synonymous codon of the profile weighs more. */
  lemma OptimalCodonIsBest(profile: Profile, synonymous: map<char, seq<string>>, aa: char)
    requires OptimalCodons(profile, synonymous).Success? && aa in synonymous
    ensures var codon := OptimalCodons(profile, synonymous).value[aa];
      && codon in synonymous[aa]
      && (exists w :: (codon, w) in profile
            && forall e :: e in profile && e.0 in synonymous[aa] ==> e.1 <= w)
  {
    var candidates := Candidates(profile, synonymous[aa]);
    var k := FirstMax(candidates);
    CandidateEntries(profile, synonymous[aa], candidates[k]);
    forall e | e in profile && e.0 in synonymous[aa] ensures e.1 <= candidates[k].1 {
      CandidateEntries(profile, synonymous[aa], e);
      var j :| 0 <= j < |candidates| && candidates[j] == e;
    }
  }

  /** The dict-filling loop of `_get_optimal_codons`, for the chosen profile. */
  method FillOptimalCodons(profile: Profile, synonymous: map<char, seq<string>>)
    returns (r: Result<map<char, string>, OrfError>)
    ensures r == OptimalCodons(profile, synonymous)
  {
    var table: map<char, string> := map[];
    var remaining := synonymous.Keys;
    while remaining != {}
      invariant remaining <= synonymous.Keys
      invariant table.Keys == synonymous.Keys - remaining
      invariant forall aa :: aa in table ==>
        Candidates(profile, synonymous[aa]) != [] && table[aa] == BestCodon(Candidates(profile, synonymous[aa]))
      decreases remaining
    {
      var aa :| aa in remaining;
      var candidates := Candidates(profile, synonymous[aa]);
      if candidates == [] {
        return Failure(EmptyCandidates);
      }
      table := table[aa := BestCodon(candidates)];
      remaining := remaining - {aa};
    }
    assert table == map aa | aa in synonymous :: BestCodon(Candidates(profile, synonymous[aa]));
    r := Success(table);
  }

  /** `s[:n]` for `n >= 0`: Python clamps the bound. */
  function Take(s: string, n: nat): (r: string)
    ensures |r| == if n <= |s| then n else |s|
    ensures forall i :: 0 <= i < |r| ==> r[i] == s[i]
  {
    if n <= |s| then s[..n] else s
  }

  /** `s[:-3]`: the empty string when `s` is shorter than three. */
  function DropLast3(s: string): (r: string)
    ensures |r| == if |s| >= 3 then |s| - 3 else 0
    ensures forall i :: 0 <= i < |r| ==> r[i] == s[i]
  {
    if |s| >= 3 then s[..|s| - 3] else []
  }

  /** `s[-3:]`: the whole string when it is shorter than three. */
  function Last3(s: string): (r: string)
    ensures |r| == if |s| >= 3 then 3 else |s|
    ensures forall i :: 0 <= i < |r| ==> r[i] == s[|s| - |r| + i]
  {
    if |s| >= 3 then s[|s| - 3..] else s
  }

  /** The gene as the `for` loop of `optimize_sequence` has built it once
    * positions `skipped .. n-1` of the protein are done: the skipped prefix
    * of the gene, then the optimal codon of each later amino acid; a KeyError
    * at the first amino acid the table lacks. */
  function Rewrite(gene: string, protein: seq<char>, table: map<char, string>, skipped: nat, n: nat)
    : (r: Result<string, OrfError>)
    requires n <= |protein|
  {
    if n <= skipped then Success(Take(gene, 3 * skipped))
    else
      match Rewrite(gene, protein, table, skipped, n - 1)
      case Failure(e) => Failure(e)
      case Success(s) =>
        if protein[n - 1] in table then Success(s + table[protein[n - 1]])
        else Failure(MissingAminoAcid(protein[n - 1]))
  }

  /** The `for` loop of `optimize_sequence`: start from the skipped prefix of
    * the gene and append the optimal codon of each later amino acid. */
  method RewriteGene(gene: string, protein: seq<char>, table: map<char, string>, skipped: nat)
    returns (r: Result<string, OrfError>)
    ensures r == Rewrite(gene, protein, table, skipped, |protein|)
  {
    var optimized := Take(gene, 3 * skipped);
    var i := skipped;
    while i < |protein|
      invariant skipped <= i
      invariant i <= |protein| || i == skipped
      invariant Rewrite(gene, protein, table, skipped, if i <= |protein| then i else |protein|) == Success(optimized)
    {
      var aa := protein[i];
      if aa !in table {
        RewriteFailureStays(gene, protein, table, skipped, i + 1, |protein|);
        return Failure(MissingAminoAcid(aa));
      }
      optimized := optimized + table[aa];
      i := i + 1;
    }
    r := Success(optimized);
  }

  /** The tail of `optimize_sequence`: run the loop, then, when the protein
    * ends in a stop and the index is tAI, put the input's stop codon back. */
  method RewriteAndPatch(gene: string, protein: seq<char>, table: map<char, string>, skipped: nat, index: CubIndex)
    returns (r: Result<string, OrfError>)
    ensures r == Optimized(gene, protein, table, skipped, KeepsStop(protein, index))
  {
    var rewritten := RewriteGene(gene, protein, table, skipped);
    if rewritten.Failure? {
      return Failure(rewritten.error);
    }
    var optimized := rewritten.value;
    if |protein| > 0 && protein[|protein| - 1] == '_' && index.isTrnaAdaptationIndex {
      optimized := DropLast3(optimized);
      optimized := optimized + Last3(gene);
    }
    r := Success(optimized);
  }

  /** `target_protein.endswith("_") and optimization_cub_index.is_trna_adaptation_index`. */
  predicate KeepsStop(protein: seq<char>, index: CubIndex) {
    |protein| > 0 && protein[|protein| - 1] == '_' && index.isTrnaAdaptationIndex
  }

  /** What `optimize_sequence` returns for a given codon table. */
  function Optimized(gene: string, protein: seq<char>, table: map<char, string>, skipped: nat, keepStop: bool)
    : (r: Result<string, OrfError>)
    ensures r.Success? <==> Rewrite(gene, protein, table, skipped, |protein|).Success?
    ensures r.Success? && keepStop ==> EndsWith(r.value, Last3(gene))
  {
    match Rewrite(gene, protein, table, skipped, |protein|)
    case Failure(e) => Failure(e)
    case Success(s) => Success(if keepStop then DropLast3(s) + Last3(gene) else s)
  }

  /** The loop succeeds exactly when every amino acid after the skipped prefix
    * has an entry in the table. */
  lemma {:induction false} RewriteSucceeds(gene: string, protein: seq<char>, table: map<char, string>, skipped: nat, n: nat)
    requires n <= |protein|
    ensures Rewrite(gene, protein, table, skipped, n).Success? <==>
      forall i :: skipped <= i < n ==> protein[i] in table
  {
    if n > skipped {
      RewriteSucceeds(gene, protein, table, skipped, n - 1);
    }
  }

  /** Once the loop has raised, it has raised for good. */
  lemma {:induction false} RewriteFailureStays(gene: string, protein: seq<char>, table: map<char, string>, skipped: nat, n: nat, m: nat)
    requires n <= m <= |protein|
    requires Rewrite(gene, protein, table, skipped, n).Failure?
    ensures Rewrite(gene, protein, table, skipped, m) == Rewrite(gene, protein, table, skipped, n)
  {
    if m > n {
      RewriteFailureStays(gene, protein, table, skipped, n, m - 1);
    }
  }

  /** The skipped prefix of the gene is copied verbatim. */
  lemma {:induction false} RewriteKeepsPrefix(gene: string, protein: seq<char>, table: map<char, string>, skipped: nat, n: nat)
    requires n <= |protein|
    requires Rewrite(gene, protein, table, skipped, n).Success?
    ensures var s := Rewrite(gene, protein, table, skipped, n).value;
      |Take(gene, 3 * skipped)| <= |s| && s[..|Take(gene, 3 * skipped)|] == Take(gene, 3 * skipped)
  {
    if n > skipped {
      RewriteKeepsPrefix(gene, protein, table, skipped, n - 1);
      var s := Rewrite(gene, protein, table, skipped, n - 1).value;
      assert (s + table[protein[n - 1]])[..|Take(gene, 3 * skipped)|] == s[..|Take(gene, 3 * skipped)|];
    }
  }

  /** Every codon of the table is three letters long. */
  predicate CodonTable(table: map<char, string>) {
    forall aa :: aa in table ==> |table[aa]| == 3
  }

  /** The optimised codon of protein position `i` sits at offset
    * `|prefix| + 3 * (i - skipped)` of the rewritten gene. */
  lemma {:induction false} RewriteCodonAt(gene: string, protein: seq<char>, table: map<char, string>, skipped: nat, n: nat, i: nat)
    requires n <= |protein| && CodonTable(table)
    requires Rewrite(gene, protein, table, skipped, n).Success?
    requires skipped <= i < n
    ensures var s := Rewrite(gene, protein, table, skipped, n).value;
      var at := |Take(gene, 3 * skipped)| + 3 * (i - skipped);
      |s| == |Take(gene, 3 * skipped)| + 3 * (n - skipped)
      && protein[i] in table && s[at..at + 3] == table[protein[i]]
  {
    var s := Rewrite(gene, protein, table, skipped, n - 1).value;
    RewriteLength(gene, protein, table, skipped, n - 1);
    if i < n - 1 {
      RewriteCodonAt(gene, protein, table, skipped, n - 1, i);
      var at := |Take(gene, 3 * skipped)| + 3 * (i - skipped);
      assert (s + table[protein[n - 1]])[at..at + 3] == s[at..at + 3];
    } else {
      assert (s + table[protein[n - 1]])[|s|..] == table[protein[n - 1]];
    }
  }

  /** With three-letter codons the rewritten gene grows by three per position. */
  lemma {:induction false} RewriteLength(gene: string, protein: seq<char>, table: map<char, string>, skipped: nat, n: nat)
    requires n <= |protein| && CodonTable(table)
    requires Rewrite(gene, protein, table, skipped, n).Success?
    ensures |Rewrite(gene, protein, table, skipped, n).value| ==
      |Take(gene, 3 * skipped)| + (if n <= skipped then 0 else 3 * (n - skipped))
  {
    if n > skipped {
      RewriteLength(gene, protein, table, skipped, n - 1);
    }
  }

  /** `s` is read as `protein` codon by codon under the genetic code `genetic`
    * (`translate`, given as a map from codon to amino acid). */
  predicate {:induction false} Encodes(genetic: map<string, char>, s: string, protein: seq<char>)
    decreases protein
  {
    if protein == [] then s == []
    else
      && |s| >= 3 && s[..3] in genetic && genetic[s[..3]] == protein[0]
      && Encodes(genetic, s[3..], protein[1..])
  }

  lemma {:induction false} EncodesLength(genetic: map<string, char>, s: string, protein: seq<char>)
    requires Encodes(genetic, s, protein)
    ensures |s| == 3 * |protein|
    decreases protein
  {
    if protein != [] {
      EncodesLength(genetic, s[3..], protein[1..]);
    }
  }

  lemma {:induction false} EncodesAppend(genetic: map<string, char>, a: string, p: seq<char>, b: string, q: seq<char>)
    requires Encodes(genetic, a, p) && Encodes(genetic, b, q)
    ensures Encodes(genetic, a + b, p + q)
    decreases p
  {
    if p == [] {
      assert a + b == b && p + q == q;
    } else {
      EncodesAppend(genetic, a[3..], p[1..], b, q);
      assert (a + b)[..3] == a[..3];
      assert (a + b)[3..] == a[3..] + b;
      assert (p + q)[1..] == p[1..] + q;
    }
  }

  lemma {:induction false} EncodesSplit(genetic: map<string, char>, s: string, protein: seq<char>, k: nat)
    requires Encodes(genetic, s, protein) && k <= |protein|
    ensures 3 * k <= |s|
    ensures Encodes(genetic, s[..3 * k], protein[..k])
    ensures Encodes(genetic, s[3 * k..], protein[k..])
    decreases protein
  {
    EncodesLength(genetic, s, protein);
    if k > 0 {
      EncodesSplit(genetic, s[3..], protein[1..], k - 1);
      assert s[3..][..3 * (k - 1)] == s[..3 * k][3..];
      assert s[..3 * k][..3] == s[..3];
      assert protein[1..][..k - 1] == protein[..k][1..];
      assert s[3..][3 * (k - 1)..] == s[3 * k..];
      assert protein[1..][k - 1..] == protein[k..];
    } else {
      assert s[..0] == [] && protein[..0] == [];
      assert s[0..] == s && protein[0..] == protein;
    }
  }

  /** Every codon of the table encodes the amino acid it stands for. */
  predicate TableEncodes(genetic: map<string, char>, table: map<char, string>) {
    forall aa :: aa in table ==> table[aa] in genetic && genetic[table[aa]] == aa && |table[aa]| == 3
  }

  /** A synonymous-codon table consistent with the genetic code. */
  predicate SynonymsEncode(genetic: map<string, char>, synonymous: map<char, seq<string>>) {
    forall aa, codon :: aa in synonymous && codon in synonymous[aa] ==>
      codon in genetic && genetic[codon] == aa && |codon| == 3
  }

  /** Optimal codons drawn from a consistent synonymous-codon table encode
    * their amino acids. */
  lemma OptimalCodonsEncode(genetic: map<string, char>, profile: Profile, synonymous: map<char, seq<string>>)
    requires SynonymsEncode(genetic, synonymous)
    requires OptimalCodons(profile, synonymous).Success?
    ensures TableEncodes(genetic, OptimalCodons(profile, synonymous).value)
  {
    var table := OptimalCodons(profile, synonymous).value;
    forall aa | aa in table ensures table[aa] in genetic && genetic[table[aa]] == aa && |table[aa]| == 3 {
      OptimalCodonIsBest(profile, synonymous, aa);
    }
  }

  lemma SingleCodon(genetic: map<string, char>, codon: string, aa: char)
    requires codon in genetic && genetic[codon] == aa && |codon| == 3
    ensures Encodes(genetic, codon, [aa])
  {
    assert codon[..3] == codon;
    assert Encodes(genetic, codon[3..], [aa][1..]);
  }

  /** The loop rewrites protein positions `..n` into a gene that still
    * encodes them. */
  lemma {:induction false} RewriteEncodes(genetic: map<string, char>, gene: string, protein: seq<char>,
                                          table: map<char, string>, skipped: nat, n: nat)
    requires Encodes(genetic, gene, protein) && TableEncodes(genetic, table)
    requires skipped <= n <= |protein|
    requires Rewrite(gene, protein, table, skipped, n).Success?
    ensures Encodes(genetic, Rewrite(gene, protein, table, skipped, n).value, protein[..n])
  {
    EncodesLength(genetic, gene, protein);
    if n == skipped {
      EncodesSplit(genetic, gene, protein, skipped);
    } else {
      RewriteEncodes(genetic, gene, protein, table, skipped, n - 1);
      var aa := protein[n - 1];
      SingleCodon(genetic, table[aa], aa);
      EncodesAppend(genetic, Rewrite(gene, protein, table, skipped, n - 1).value, protein[..n - 1], table[aa], [aa]);
      assert protein[..n - 1] + [aa] == protein[..n];
    }
  }

  /** Given a genetic code the table agrees with, the optimised gene encodes
    * the same protein as the input gene, the restored stop codon included. */
  lemma OptimizedEncodes(genetic: map<string, char>, gene: string, protein: seq<char>,
                         table: map<char, string>, skipped: nat, keepStop: bool)
    requires Encodes(genetic, gene, protein) && TableEncodes(genetic, table)
    requires keepStop ==> |protein| > 0
    requires Optimized(gene, protein, table, skipped, keepStop).Success?
    ensures Encodes(genetic, Optimized(gene, protein, table, skipped, keepStop).value, protein)
  {
    EncodesLength(genetic, gene, protein);
    var m := |protein|;
    var s := Rewrite(gene, protein, table, skipped, m).value;
    if skipped >= m {
      assert Take(gene, 3 * skipped) == gene;
      assert s == gene;
    } else {
      RewriteEncodes(genetic, gene, protein, table, skipped, m);
      assert protein[..m] == protein;
    }
    if keepStop {
      StopPatchEncodes(genetic, s, gene, protein);
    }
  }

  /** Putting the input's last codon back in place of the rewritten one keeps
    * the encoded protein. */
  lemma StopPatchEncodes(genetic: map<string, char>, s: string, gene: string, protein: seq<char>)
    requires Encodes(genetic, s, protein) && Encodes(genetic, gene, protein) && |protein| > 0
    ensures Encodes(genetic, DropLast3(s) + Last3(gene), protein)
  {
    var m := |protein|;
    EncodesLength(genetic, s, protein);
    EncodesLength(genetic, gene, protein);
    EncodesSplit(genetic, s, protein, m - 1);
    EncodesSplit(genetic, gene, protein, m - 1);
    assert DropLast3(s) == s[..3 * (m - 1)];
    assert Last3(gene) == gene[3 * (m - 1)..];
    EncodesAppend(genetic, DropLast3(s), protein[..m - 1], Last3(gene), protein[m - 1..]);
    assert protein[..m - 1] + protein[m - 1..] == protein;
  }

  /** The stop-codon patch replaces only the last rewritten codon: when the
    * rewritten part is non-empty, the skipped prefix survives it. */
  lemma OptimizedKeepsPrefix(gene: string, protein: seq<char>, table: map<char, string>, skipped: nat, keepStop: bool)
    requires CodonTable(table)
    requires keepStop ==> skipped < |protein|
    requires Optimized(gene, protein, table, skipped, keepStop).Success?
    ensures var s := Optimized(gene, protein, table, skipped, keepStop).value;
      |Take(gene, 3 * skipped)| <= |s| && s[..|Take(gene, 3 * skipped)|] == Take(gene, 3 * skipped)
  {
    var m := |protein|;
    RewriteKeepsPrefix(gene, protein, table, skipped, m);
    var s := Rewrite(gene, protein, table, skipped, m).value;
    var p := |Take(gene, 3 * skipped)|;
    if keepStop {
      RewriteLength(gene, protein, table, skipped, m);
      assert (DropLast3(s) + Last3(gene))[..p] == s[..p];
    }
  }
}
