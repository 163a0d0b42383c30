/** The communique front-end's form validators (`ui/communique/lib/validation.ts`). */
module CommuniqueValidation {
  import opened Common
  import opened Text
  import opened Types
  import opened Fasta
  import opened Messages
  import DcubValidation

  const SequenceRequired: string := "DNA sequence is required"
  const HeaderRequired: string := "FASTA sequence must start with a header line (>)"
  const InvalidCharacters: string :=
    "Sequence contains invalid characters. Only DNA bases (A, T, G, C) and IUPAC codes are allowed"
  const SequenceEmpty: string := "Sequence cannot be empty"
  const PathRequired: string := "Genome file path is required"
  const PriorityOutOfRange: string := "Priority must be between 1 and 100"
  const SubmissionSequenceRequired: string := "DNA sequence is required (either manual entry or file upload)"
  const NoOrganisms: string := "At least one wanted or unwanted organism must be specified"

  /** `validateFastaSequence`: the first line of the trimmed text must be a
    * `>` header. */
  function ValidateFastaSequence(sequence: string): (r: ValidationResult)
    ensures r.errors.None?
    ensures r.isValid <==> r.error.None?
  {
    if IsBlank(sequence) then Invalid(SequenceRequired)
    else
      var lines := Split(Trim(sequence), '\n');
      if !StartsWith(lines[0], ">") then Invalid(HeaderRequired)
      else
        var sequenceLines := ToUpper(RemoveWhitespace(Concat(lines[1..])));
        if !AllIupac(sequenceLines) then Invalid(InvalidCharacters)
        else if |sequenceLines| == 0 then Invalid(SequenceEmpty)
        else Valid()
  }

  /** The text must have a header, and the lines after it must be non-empty
    * and IUPAC once whitespace is removed and letters are upper-cased; each
    * failure has its message, in the order blank, header, characters, empty. */
  lemma FastaValidity(sequence: string)
    ensures var r := ValidateFastaSequence(sequence);
      && (r.isValid <==>
            !IsBlank(sequence) && HasHeader(sequence)
            && SequenceBody(sequence) != [] && AllIupac(SequenceBody(sequence)))
      && (IsBlank(sequence) ==> r.error == Some(SequenceRequired))
      && (!IsBlank(sequence) && !HasHeader(sequence) ==> r.error == Some(HeaderRequired))
      && (!IsBlank(sequence) && HasHeader(sequence) && !AllIupac(SequenceBody(sequence)) ==>
            r.error == Some(InvalidCharacters))
      && (!IsBlank(sequence) && HasHeader(sequence) && SequenceBody(sequence) == [] ==>
            r.error == Some(SequenceEmpty))
  {
    if !IsBlank(sequence) {
      HeaderLine(sequence);
      BodyOfLines(sequence);
    }
  }

  /** Every sequence accepted here is accepted by the DCUB validator too. */
  lemma AcceptedByDcub(sequence: string)
    requires ValidateFastaSequence(sequence).isValid
    ensures DcubValidation.ValidateFastaSequence(sequence).isValid
  {
    FastaValidity(sequence);
    DcubValidation.FastaValidity(sequence);
  }

  /** A `>` on any line after the header makes the text invalid: a file of
    * several FASTA records is refused. */
  lemma MultiRecordRejected(sequence: string, k: nat)
    requires !IsBlank(sequence)
    requires 1 <= k < |Split(Trim(sequence), '\n')|
    requires '>' in Split(Trim(sequence), '\n')[k]
    ensures !ValidateFastaSequence(sequence).isValid
  {
    var lines := Split(Trim(sequence), '\n');
    assert lines[1..][k - 1] == lines[k];
    ConcatChars(lines[1..], k - 1, '>');
    HeaderMarkNotIupac(Concat(lines[1..]));
  }

  /** `validateOrganism`: the path must be non-blank and the priority in 1..100. */
  function ValidateOrganism(genomePath: string, priority: int): (r: ValidationResult)
    ensures r.error.None? && r.errors.Some?
    ensures r.isValid <==> r.errors.value == []
  {
    var errors :=
      (if IsBlank(genomePath) then [PathRequired] else [])
      + (if priority < 1 || priority > 100 then [PriorityOutOfRange] else []);
    ValidationResult(|errors| == 0, None, Some(errors))
  }

  /** An organism is valid exactly when its path is non-blank and its priority
    * lies in 1..100; the path error comes first, the priority error last. */
  lemma OrganismValidity(genomePath: string, priority: int)
    ensures var r := ValidateOrganism(genomePath, priority);
      && (r.isValid <==> !IsBlank(genomePath) && 1 <= priority <= 100)
      && |r.errors.value| == (if IsBlank(genomePath) then 1 else 0) + (if 1 <= priority <= 100 then 0 else 1)
      && (IsBlank(genomePath) ==> r.errors.value[0] == PathRequired)
      && (!(1 <= priority <= 100) ==> r.errors.value[|r.errors.value| - 1] == PriorityOutOfRange)
  {
  }

  /** Every organism the DCUB validator accepts is accepted here: a GenBank
    * path is in particular non-blank. */
  lemma OrganismAcceptedFromDcub(genomePath: string, priority: int)
    requires DcubValidation.ValidateOrganism(genomePath, priority).isValid
    ensures ValidateOrganism(genomePath, priority).isValid
  {
    DcubValidation.OrganismValidity(genomePath, priority);
  }

  function OrganismErrorsOf(organism: Organism): seq<string> {
    ValidateOrganism(organism.genomePath, organism.priority).errors.value
  }

  /** The error list of each organism, in list order. */
  function ErrorLists(organisms: seq<Organism>): (r: seq<seq<string>>)
    ensures |r| == |organisms|
    ensures forall i :: 0 <= i < |organisms| ==> r[i] == OrganismErrorsOf(organisms[i])
  {
    seq(|organisms|, i requires 0 <= i < |organisms| => OrganismErrorsOf(organisms[i]))
  }

  /** The messages about the sequence and about the organism lists being both empty. */
  function FormErrors(data: SubmissionData): seq<string> {
    var sequenceMissing := IsBlank(data.dnaSequence) && data.sequenceFile.None?;
    var sequenceValidation := ValidateFastaSequence(data.dnaSequence);
    (if sequenceMissing then [SubmissionSequenceRequired] else [])
    + (if !IsBlank(data.dnaSequence) && !sequenceValidation.isValid
       then ["DNA sequence: " + sequenceValidation.error.value] else [])
    + (if |data.wantedOrganisms| == 0 && |data.unwantedOrganisms| == 0 then [NoOrganisms] else [])
  }

  /** Every message `validateSubmission` reports, in order. */
  function SubmissionErrors(data: SubmissionData): seq<string> {
    FormErrors(data) + Numbered(ErrorLists(data.wantedOrganisms + data.unwantedOrganisms))
  }

  /** `validateSubmission`: the sequence checks, the organism-list check, then
    * every organism of wanted ++ unwanted in turn. */
  method ValidateSubmission(data: SubmissionData) returns (r: ValidationResult)
    ensures r.error.None? && r.errors == Some(SubmissionErrors(data))
    ensures r.isValid <==> r.errors.value == []
  {
    var errors := CheckForm(data);
    errors := ReportOrganisms(errors, data.wantedOrganisms + data.unwantedOrganisms);
    r := ValidationResult(|errors| == 0, None, Some(errors));
  }

  /** The first three checks of `validateSubmission`. */
  method CheckForm(data: SubmissionData) returns (errors: seq<string>)
    ensures errors == FormErrors(data)
  {
    errors := [];
    if IsBlank(data.dnaSequence) && data.sequenceFile.None? {
      errors := errors + [SubmissionSequenceRequired];
    }
    if !IsBlank(data.dnaSequence) {
      var sequenceValidation := ValidateFastaSequence(data.dnaSequence);
      if !sequenceValidation.isValid {
        errors := errors + ["DNA sequence: " + sequenceValidation.error.value];
      }
    }
    if |data.wantedOrganisms| == 0 && |data.unwantedOrganisms| == 0 {
      errors := errors + [NoOrganisms];
    }
  }

  /** The organism `forEach`: the messages of the organism at position
    * `index` are numbered `index + 1`. */
  method ReportOrganisms(before: seq<string>, all: seq<Organism>) returns (errors: seq<string>)
    ensures errors == before + Numbered(ErrorLists(all))
  {
    errors := before;
    ghost var lists := ErrorLists(all);
    var index := 0;
    while index < |all|
      invariant 0 <= index <= |all|
      invariant errors == before + Numbered(lists[..index])
    {
      ghost var prev := errors;
      errors := ReportOrganism(errors, index + 1, all[index]);
      NumberedExtend(before, lists, index, prev, errors);
      index := index + 1;
    }
    assert lists[..index] == lists;
  }

  /** The body of the organism `forEach`: validate one organism and, when it
    * is invalid, push its numbered messages. */
  method ReportOrganism(errors: seq<string>, k: nat, organism: Organism) returns (r: seq<string>)
    ensures r == errors + NumberedMessages(k, OrganismErrorsOf(organism))
  {
    var validation := ValidateOrganism(organism.genomePath, organism.priority);
    if !validation.isValid {
      r := PushNumbered(errors, k, validation.errors.value);
    } else {
      r := errors;
      assert NumberedMessages(k, validation.errors.value) == [];
    }
  }

  /** Each error of the organism at 0-based position `i` of wanted ++ unwanted
    * is reported as "Organism (i+1): error". */
  lemma OrganismErrorNumbering(data: SubmissionData, i: nat, j: nat)
    requires i < |data.wantedOrganisms + data.unwantedOrganisms|
    requires j < |OrganismErrorsOf((data.wantedOrganisms + data.unwantedOrganisms)[i])|
    ensures "Organism " + NatToString(i + 1) + ": "
      + OrganismErrorsOf((data.wantedOrganisms + data.unwantedOrganisms)[i])[j] in SubmissionErrors(data)
  {
    NumberedContains(ErrorLists(data.wantedOrganisms + data.unwantedOrganisms), i, j);
  }

  /** A submission is accepted exactly when a sequence is given (typed or
    * uploaded), a typed sequence is a valid FASTA record, some organism is
    * listed, and every listed organism is valid. */
  lemma SubmissionValidity(data: SubmissionData)
    ensures SubmissionErrors(data) == [] <==>
      (!IsBlank(data.dnaSequence) || data.sequenceFile.Some?)
      && (!IsBlank(data.dnaSequence) ==> ValidateFastaSequence(data.dnaSequence).isValid)
      && |data.wantedOrganisms| + |data.unwantedOrganisms| > 0
      && forall i :: 0 <= i < |data.wantedOrganisms + data.unwantedOrganisms| ==>
           ValidateOrganism((data.wantedOrganisms + data.unwantedOrganisms)[i].genomePath,
                            (data.wantedOrganisms + data.unwantedOrganisms)[i].priority).isValid
  {
    NumberedEmpty(ErrorLists(data.wantedOrganisms + data.unwantedOrganisms));
  }
}
