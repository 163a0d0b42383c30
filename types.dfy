/** The records shared by the communique front-end (its `lib/types.ts`). */
module Types {
  import opened Common

  /** An organism entry of the wanted or unwanted list. */
  datatype Organism = Organism(id: string, genomePath: string, priority: int, expressionDataPath: Option<string>)

  /** The outcome of a validator: `error` for a single message, `errors` for a list. */
  datatype ValidationResult = ValidationResult(isValid: bool, error: Option<string>, errors: Option<seq<string>>)

  /** A browser `File`, of which the model keeps only the name and the size in bytes. */
  datatype FileRef = FileRef(name: string, size: nat)

  /** What the form submits. */
  datatype SubmissionData = SubmissionData(
    dnaSequence: string,
    sequenceFile: Option<FileRef>,
    wantedOrganisms: seq<Organism>,
    unwantedOrganisms: seq<Organism>)

  function Valid(): ValidationResult {
    ValidationResult(true, None, None)
  }

  function Invalid(message: string): ValidationResult {
    ValidationResult(false, Some(message), None)
  }
}
