/** The DCUB front-end's form validators (`ui/DCUB/lib/validation.ts`). */
module DcubValidation {
  import opened Common
  import opened Text
  import opened Types
  import opened Fasta
  import opened Messages

  const SequenceRequired: string := "DNA sequence is required"
  const InvalidCharacters: string :=
    "Sequence contains invalid characters. Only DNA bases (A, T, G, C) and IUPAC codes are allowed"
  const SequenceEmpty: string := "Sequence cannot be empty"
  const PathRequired: string := "GenBank genome file path is required"
  const PathNotGenBank: string := "Genome file must be in GenBank format (.gb or .gbf extension)"
  const PriorityOutOfRange: string := "Priority must be between 1 and 100"
  const SubmissionSequenceRequired: string := "DNA sequence is required (either manual entry or file upload)"
  const NoOrganisms: string := "At least one wanted or unwanted organism must be specified"

  /** `validateFastaSequence`: a `>` header line is optional. */
  function ValidateFastaSequence(sequence: string): (r: ValidationResult)
    ensures r.errors.None?
    ensures r.isValid <==> r.error.None?
  {
    if IsBlank(sequence) then Invalid(SequenceRequired)
    else
      var lines := Split(Trim(sequence), '\n');
      var content :=
        if StartsWith(lines[0], ">") then ToUpper(RemoveWhitespace(Concat(lines[1..])))
        else ToUpper(RemoveWhitespace(Concat(lines)));
      if !AllIupac(content) then Invalid(InvalidCharacters)
      else if |content| == 0 then Invalid(SequenceEmpty)
      else Valid()
  }

  /** Whatever follows the header (or the whole text when there is none) must
    * be non-empty and IUPAC once whitespace is removed and letters are
    * upper-cased; blank text, foreign characters and an empty body each have
    * their message, the character check coming first. */
  lemma FastaValidity(sequence: string)
    ensures var r := ValidateFastaSequence(sequence);
      && (r.isValid <==> !IsBlank(sequence) && SequenceBody(sequence) != [] && AllIupac(SequenceBody(sequence)))
      && (IsBlank(sequence) ==> r.error == Some(SequenceRequired))
      && (!IsBlank(sequence) && !AllIupac(SequenceBody(sequence)) ==> r.error == Some(InvalidCharacters))
      && (!IsBlank(sequence) && SequenceBody(sequence) == [] ==> r.error == Some(SequenceEmpty))
  {
    if !IsBlank(sequence) {
      HeaderLine(sequence);
      BodyOfLines(sequence);
    }
  }

  /** Acceptance, and the message given, do not depend on letter case. */
  lemma FastaCaseInsensitive(sequence: string)
    ensures ValidateFastaSequence(ToUpper(sequence)) == ValidateFastaSequence(sequence)
  {
    SequenceBodyToUpper(sequence);
    FastaValidity(sequence);
    FastaValidity(ToUpper(sequence));
  }

  /** `validateGenBankPath`: the trimmed path, in lower case, must end in `.gb` or `.gbf`. */
  function ValidateGenBankPath(genomePath: string): (r: ValidationResult)
    ensures r.errors.None?
    ensures r.isValid <==> r.error.None?
    ensures IsBlank(genomePath) ==> r.error == Some(PathRequired)
    ensures !IsBlank(genomePath) && !r.isValid ==> r.error == Some(PathNotGenBank)
    ensures r.isValid ==> |Trim(genomePath)| >= 3
  {
    if IsBlank(genomePath) then Invalid(PathRequired)
    else
      var path := ToLower(Trim(genomePath));
      if !EndsWith(path, ".gb") && !EndsWith(path, ".gbf") then Invalid(PathNotGenBank)
      else Valid()
  }

  lemma LowerUpperChar(c: char)
    ensures LowerChar(UpperChar(c)) == LowerChar(c)
  {
  }

  /** A path is accepted or refused regardless of the case of its letters. */
  lemma GenBankPathCaseInsensitive(genomePath: string)
    ensures ValidateGenBankPath(ToUpper(genomePath)) == ValidateGenBankPath(genomePath)
  {
    TrimToUpper(genomePath);
    var t := Trim(genomePath);
    forall i | 0 <= i < |t| ensures LowerChar(UpperChar(t[i])) == LowerChar(t[i]) {
      LowerUpperChar(t[i]);
    }
    assert ToLower(ToUpper(t)) == ToLower(t);
  }

  /** `validateOrganism`: both the path error and the priority error are reported. */
  function ValidateOrganism(genomePath: string, priority: int): (r: ValidationResult)
    ensures r.error.None? && r.errors.Some?
    ensures r.isValid <==> r.errors.value == []
  {
    var pathValidation := ValidateGenBankPath(genomePath);
    var errors :=
      (if !pathValidation.isValid then [pathValidation.error.value] else [])
      + (if priority < 1 || priority > 100 then [PriorityOutOfRange] else []);
    ValidationResult(|errors| == 0, None, Some(errors))
  }

  /** An organism is valid exactly when its path is a GenBank path and its
    * priority lies in 1..100; the path error comes first, the priority error last. */
  lemma OrganismValidity(genomePath: string, priority: int)
    ensures var r := ValidateOrganism(genomePath, priority);
      && (r.isValid <==> ValidateGenBankPath(genomePath).isValid && 1 <= priority <= 100)
      && |r.errors.value| ==
           (if ValidateGenBankPath(genomePath).isValid then 0 else 1) + (if 1 <= priority <= 100 then 0 else 1)
      && (!ValidateGenBankPath(genomePath).isValid ==>
            r.errors.value[0] == ValidateGenBankPath(genomePath).error.value)
      && (!(1 <= priority <= 100) ==> r.errors.value[|r.errors.value| - 1] == PriorityOutOfRange)
  {
  }

  function OrganismErrorsOf(organism: Organism): seq<string> {
    ValidateOrganism(organism.genomePath, organism.priority).errors.value
  }

  /** The error list of each organism, in list order. */
  function ErrorLists(organisms: seq<Organism>): (r: seq<seq<string>>)
    ensures |r| == |organisms|
    ensures forall i :: 0 <= i < |organisms| ==> r[i] == OrganismErrorsOf(organisms[i])
  {
    seq(|organisms|, i requires 0 <= i < |organisms| => OrganismErrorsOf(organisms[i]))
  }

  /** The messages about the sequence and about the organism lists being both empty. */
  function FormErrors(data: SubmissionData): seq<string> {
    var sequenceMissing := IsBlank(data.dnaSequence) && data.sequenceFile.None?;
    var sequenceValidation := ValidateFastaSequence(data.dnaSequence);
    (if sequenceMissing then [SubmissionSequenceRequired] else [])
    + (if !IsBlank(data.dnaSequence) && !sequenceValidation.isValid
       then ["DNA sequence: " + sequenceValidation.error.value] else [])
    + (if |data.wantedOrganisms| == 0 && |data.unwantedOrganisms| == 0 then [NoOrganisms] else [])
  }

  /** Every message `validateSubmission` reports, in order. */
  function SubmissionErrors(data: SubmissionData): seq<string> {
    FormErrors(data) + Numbered(ErrorLists(data.wantedOrganisms + data.unwantedOrganisms))
  }

  /** `validateSubmission`: the sequence checks, the organism-list check, then
    * every organism of wanted ++ unwanted in turn. */
  method ValidateSubmission(data: SubmissionData) returns (r: ValidationResult)
    ensures r.error.None? && r.errors == Some(SubmissionErrors(data))
    ensures r.isValid <==> r.errors.value == []
  {
    var errors := CheckForm(data);
    errors := ReportOrganisms(errors, data.wantedOrganisms + data.unwantedOrganisms);
    r := ValidationResult(|errors| == 0, None, Some(errors));
  }

  /** The organism `forEach` of `validateSubmission`: the messages of the
    * organism at position `index` are numbered `index + 1`. */
  method ReportOrganisms(before: seq<string>, all: seq<Organism>) returns (errors: seq<string>)
    ensures errors == before + Numbered(ErrorLists(all))
  {
    errors := before;
    ghost var lists := ErrorLists(all);
    var index := 0;
    while index < |all|
      invariant 0 <= index <= |all|
      invariant errors == before + Numbered(lists[..index])
    {
      ghost var prev := errors;
      errors := ReportOrganism(errors, index + 1, all[index]);
      NumberedExtend(before, lists, index, prev, errors);
      index := index + 1;
    }
    assert lists[..index] == lists;
  }

  /** The first three checks of `validateSubmission`: a sequence is given, a
    * typed sequence is valid, and some organism is listed. */
  method CheckForm(data: SubmissionData) returns (errors: seq<string>)
    ensures errors == FormErrors(data)
  {
    errors := [];
    if IsBlank(data.dnaSequence) && data.sequenceFile.None? {
      errors := errors + [SubmissionSequenceRequired];
    }
    if !IsBlank(data.dnaSequence) {
      var sequenceValidation := ValidateFastaSequence(data.dnaSequence);
      if !sequenceValidation.isValid {
        errors := errors + ["DNA sequence: " + sequenceValidation.error.value];
      }
    }
    if |data.wantedOrganisms| == 0 && |data.unwantedOrganisms| == 0 {
      errors := errors + [NoOrganisms];
    }
  }

  /** The body of the organism `forEach`: validate one organism and, when it
    * is invalid, push its numbered messages. */
  method ReportOrganism(errors: seq<string>, k: nat, organism: Organism) returns (r: seq<string>)
    ensures r == errors + NumberedMessages(k, OrganismErrorsOf(organism))
  {
    var validation := ValidateOrganism(organism.genomePath, organism.priority);
    if !validation.isValid {
      r := PushNumbered(errors, k, validation.errors.value);
    } else {
      r := errors;
      assert NumberedMessages(k, validation.errors.value) == [];
    }
  }

  /** Each error of the organism at 0-based position `i` of wanted ++ unwanted
    * is reported as "Organism (i+1): error". */
  lemma OrganismErrorNumbering(data: SubmissionData, i: nat, j: nat)
    requires i < |data.wantedOrganisms + data.unwantedOrganisms|
    requires j < |OrganismErrorsOf((data.wantedOrganisms + data.unwantedOrganisms)[i])|
    ensures "Organism " + NatToString(i + 1) + ": "
      + OrganismErrorsOf((data.wantedOrganisms + data.unwantedOrganisms)[i])[j] in SubmissionErrors(data)
  {
    NumberedContains(ErrorLists(data.wantedOrganisms + data.unwantedOrganisms), i, j);
  }

  /** A submission is accepted exactly when a sequence is given (typed or
    * uploaded), a typed sequence is a valid one, some organism is listed, and
    * every listed organism is valid. */
  lemma SubmissionValidity(data: SubmissionData)
    ensures SubmissionErrors(data) == [] <==>
      (!IsBlank(data.dnaSequence) || data.sequenceFile.Some?)
      && (!IsBlank(data.dnaSequence) ==> ValidateFastaSequence(data.dnaSequence).isValid)
      && |data.wantedOrganisms| + |data.unwantedOrganisms| > 0
      && forall i :: 0 <= i < |data.wantedOrganisms + data.unwantedOrganisms| ==>
           ValidateOrganism((data.wantedOrganisms + data.unwantedOrganisms)[i].genomePath,
                            (data.wantedOrganisms + data.unwantedOrganisms)[i].priority).isValid
  {
    NumberedEmpty(ErrorLists(data.wantedOrganisms + data.unwantedOrganisms));
  }
}
