# Codon-optimisation front-ends and ORF step, modelled in Dafny

This project models the self-contained logic of a codon-usage-bias (CUB)
optimisation tool. The tool has two web front-ends, DCUB and communique, and
a Python back-end. The back-end's single-organism ORF step rewrites a gene
codon by codon.

The model covers:

- **Sequence validators** of both front-ends (`DcubValidation`,
  `CommuniqueValidation`, with the shared FASTA vocabulary in `Fasta` and the
  "Organism k: …" numbering in `Messages`):
  - FASTA or raw-sequence acceptance over the IUPAC nucleotide alphabet;
  - the GenBank path check;
  - the inclusive priority range 1..100;
  - the whole-submission error list.
- **The two sequence-input components** (`DcubSequenceInput`,
  `CommuniqueSequenceInput`):
  - FASTA parsing;
  - the text, upload and remove handlers as classes over the component and
    store fields they write.
- **The communique store** (`Store`): a class whose actions overwrite its
  fields, plus the persisted snapshot.
- **The communique organism list** (`OrganismList`):
  - the default priority;
  - the add form;
  - the per-organism upload path;
  - the card edits.
- **The DCUB results screen** (`ResultsScreen`):
  - 60-column sequence layout;
  - score colours and badges;
  - the method label.
- **The DCUB loading screen** (`LoadingScreen`):
  - the `m:ss` clock;
  - the progress-to-step mapping;
  - the progress tick.
- **The ORF step in its two copies:**
  - `OrfStrict` models `modules/…`, which demands exactly one wanted organism;
  - `OrfLenient` models `app/…`, which uses the first wanted organism;
  - both share `OrfCore`: optimal-codon choice, the rewrite loop and the
    tAI stop-codon patch.

Shared pieces:

- `Text` models the JavaScript string operations the sources rely on:
  - `trim` and `\s` over the ECMAScript white-space set;
  - `split("\n")`, which always yields at least one piece;
  - ASCII `toUpperCase` and `toLowerCase`;
  - `startsWith` and `endsWith`;
  - `padStart` and decimal numerals.
- `Types` follows `ui/communique/lib/types.ts`.
- `Common` holds `Option` and `Result`.

## Model

| member | source | states |
|---|---|---|
| `DcubValidation.ValidateFastaSequence` | ui/DCUB/lib/validation.ts:3-36 | `validateFastaSequence`: the result has no error list and is valid iff it carries no message. Which texts it accepts, and with which message it refuses the others, is stated by `FastaValidity`. |
| `DcubValidation.FastaValidity` | ui/DCUB/lib/validation.ts:3-36 | Accepted iff the text is non-blank and the body is non-empty and IUPAC only. The body is the text with a leading `>` line dropped, whitespace removed and letters upper-cased. Blank text gets "DNA sequence is required". Foreign characters get the invalid-characters message. An empty body gets "Sequence cannot be empty". The character check comes first. |
| `DcubValidation.FastaCaseInsensitive` | ui/DCUB/lib/validation.ts:13-33 | Validating the upper-cased text gives the same result and message as the text itself. |
| `DcubValidation.ValidateGenBankPath` | ui/DCUB/lib/validation.ts:38-52 | A blank path gets the "required" error. Any other refusal gets the GenBank-format error. Valid iff there is no error, and an accepted trimmed path has at least 3 characters. |
| `DcubValidation.GenBankPathCaseInsensitive` | ui/DCUB/lib/validation.ts:43-44 | The suffix test is on the lower-cased trimmed path, so upper-casing the input does not change the verdict. |
| `DcubValidation.ValidateOrganism` | ui/DCUB/lib/validation.ts:54-71 | The result carries an error list and no single error. It is valid iff the list is empty. |
| `DcubValidation.OrganismValidity` | ui/DCUB/lib/validation.ts:54-71 | Valid iff the path passes the GenBank check and 1 <= priority <= 100. There is one error per failed check, the path error first and the priority error last. |
| `DcubValidation.CheckForm` | ui/DCUB/lib/validation.ts:76-91 | In order: the "sequence required" message when the text is blank and there is no file; the prefixed sequence error when non-blank text is invalid; the "no organisms" message when both lists are empty. |
| `DcubValidation.ReportOrganism` | ui/DCUB/lib/validation.ts:94-99 | Appends every error of one invalid organism, labelled with its number. Nothing is appended for a valid organism. |
| `DcubValidation.ReportOrganisms` | ui/DCUB/lib/validation.ts:93-100 | The loop over wanted ++ unwanted appends the numbered error lists of all organisms in order, the organism at position i numbered i+1. |
| `DcubValidation.ValidateSubmission` | ui/DCUB/lib/validation.ts:73-106 | The errors are the form errors followed by the numbered organism errors. Valid iff there are none. |
| `DcubValidation.OrganismErrorNumbering` | ui/DCUB/lib/validation.ts:93-100 | Every error of the organism at 0-based position i of wanted ++ unwanted appears as "Organism (i+1): error". |
| `DcubValidation.SubmissionValidity` | ui/DCUB/lib/validation.ts:73-106 | A submission is valid iff all of these hold: a sequence is typed or uploaded; a typed sequence is valid; some organism is listed; every listed organism is valid. |
| `Messages.PushNumbered` | ui/DCUB/lib/validation.ts:96-98 | The inner loop appends each message of one organism, prefixed "Organism k: ", in order. |
| `Messages.NumberedEmpty` | ui/DCUB/lib/validation.ts:93-100 | The numbered organism messages are empty iff no organism has an error. |
| `Messages.NumberedContains` | ui/DCUB/lib/validation.ts:96-98 | Error j of the organism at position i is reported under the number i+1. |
| `CommuniqueValidation.ValidateFastaSequence` | ui/communique/lib/validation.ts:3-31 | `validateFastaSequence`: the result has no error list and is valid iff it carries no message. Acceptance and the messages are stated by `FastaValidity`, `AcceptedByDcub` and `MultiRecordRejected`. |
| `CommuniqueValidation.FastaValidity` | ui/communique/lib/validation.ts:3-31 | Accepted iff the text is non-blank, starts with a `>` header line, and the body is non-empty and IUPAC only. The body is the lines after the header, whitespace removed and upper-cased. The messages come in the order blank, header, characters, empty. |
| `CommuniqueValidation.AcceptedByDcub` | ui/communique/lib/validation.ts:11-30 | Every sequence this validator accepts is accepted by the DCUB validator. |
| `CommuniqueValidation.MultiRecordRejected` | ui/communique/lib/validation.ts:16-24 | A `>` on any line after the header makes the text invalid, so multi-record FASTA is refused. The component's help text (ui/communique/components/dna-sequence-input.tsx line 211) says that multiple sequences are supported. |
| `CommuniqueValidation.ValidateOrganism` | ui/communique/lib/validation.ts:33-48 | The result carries an error list and no single error. It is valid iff the list is empty. |
| `CommuniqueValidation.OrganismValidity` | ui/communique/lib/validation.ts:33-48 | Valid iff the path is non-blank and 1 <= priority <= 100. There is one error per failed check, the path error first and the priority error last. |
| `CommuniqueValidation.OrganismAcceptedFromDcub` | ui/communique/lib/validation.ts:36-41 | Every organism the DCUB validator accepts is accepted here. |
| `CommuniqueValidation.CheckForm` | ui/communique/lib/validation.ts:53-68 | The same three form checks as DCUB, in the same order. |
| `CommuniqueValidation.ReportOrganism` | ui/communique/lib/validation.ts:71-76 | Appends the numbered errors of one invalid organism. Nothing is appended for a valid organism. |
| `CommuniqueValidation.ReportOrganisms` | ui/communique/lib/validation.ts:70-77 | The loop over wanted ++ unwanted appends every organism's numbered errors in list order. |
| `CommuniqueValidation.ValidateSubmission` | ui/communique/lib/validation.ts:50-83 | The errors are the form errors followed by the numbered organism errors. Valid iff there are none. |
| `CommuniqueValidation.OrganismErrorNumbering` | ui/communique/lib/validation.ts:70-77 | Every error of the organism at position i appears as "Organism (i+1): error". |
| `CommuniqueValidation.SubmissionValidity` | ui/communique/lib/validation.ts:50-83 | A submission is valid iff a sequence or file is given, a typed sequence is valid, some organism is listed and every organism is valid. |
| `OrfCore.Wanted` | modules/ORF/single_organism_optimization_method.py:63 | The wanted organisms are exactly those with `is_optimized`, and there are no more of them than organisms. |
| `OrfCore.WantedAppend` | modules/ORF/single_organism_optimization_method.py:63 | The filter of a concatenation is the concatenation of the filters, so relative order is kept. |
| `OrfCore.CandidateEntries` | modules/ORF/single_organism_optimization_method.py:73 | The candidates are exactly the profile entries whose codon is synonymous for the amino acid. |
| `OrfCore.FirstMax` | modules/ORF/single_organism_optimization_method.py:74 | `max` with a weight key picks an entry of greatest weight. Every earlier entry weighs strictly less, so ties go to the first. |
| `OrfCore.OptimalCodons` | modules/ORF/single_organism_optimization_method.py:70-75 | A filled table has an entry for every amino acid of the synonymous-codon table. The only failure is an empty candidate set. |
| `OrfCore.OptimalCodonsFail` | modules/ORF/single_organism_optimization_method.py:73-74 | The step raises iff some amino acid has no synonymous codon in the profile. |
| `OrfCore.OptimalCodonIsBest` | modules/ORF/single_organism_optimization_method.py:71-75 | Each chosen codon is synonymous for its amino acid and present in the profile. No synonymous codon of the profile weighs more. |
| `OrfCore.FillOptimalCodons` | modules/ORF/single_organism_optimization_method.py:70-77 | The dict-filling loop yields the table or the error defined by `OptimalCodons`. |
| `OrfCore.Take` | modules/ORF/single_organism_optimization_method.py:36 | `s[:n]` keeps the first n letters of `s`, or all of `s` when it is shorter. |
| `OrfCore.DropLast3` | modules/ORF/single_organism_optimization_method.py:44 | `s[:-3]` is `s` without its last three letters, or empty when `s` is shorter. |
| `OrfCore.Last3` | modules/ORF/single_organism_optimization_method.py:45 | `s[-3:]` is the last three letters of `s`, or all of `s` when it is shorter. |
| `OrfCore.Rewrite` | modules/ORF/single_organism_optimization_method.py:35-40 | The gene as the loop has built it after n protein positions: the skipped prefix, then one table codon per later position, or the KeyError of the first missing amino acid. Its properties are stated by `RewriteSucceeds`, `RewriteFailureStays`, `RewriteKeepsPrefix`, `RewriteCodonAt`, `RewriteLength` and `RewriteEncodes`. |
| `OrfCore.RewriteGene` | modules/ORF/single_organism_optimization_method.py:35-40 | The `for` loop yields the gene or the KeyError defined by `Rewrite` over the whole protein. |
| `OrfCore.RewriteAndPatch` | modules/ORF/single_organism_optimization_method.py:35-45 | The loop followed by the stop-codon patch yields `Optimized` for the protein and index. |
| `OrfCore.Optimized` | modules/ORF/single_organism_optimization_method.py:42-45 | The result succeeds iff the loop succeeded. When the protein ends in `_` under tAI, the result ends with the input gene's last three letters. |
| `OrfCore.RewriteSucceeds` | modules/ORF/single_organism_optimization_method.py:37-40 | The loop succeeds iff every amino acid after the skipped prefix has an entry in the table. |
| `OrfCore.RewriteFailureStays` | modules/ORF/single_organism_optimization_method.py:37-40 | Once the loop has raised, later positions do not change the error. |
| `OrfCore.RewriteKeepsPrefix` | modules/ORF/single_organism_optimization_method.py:35-36 | The first `3*skipped` letters of the gene are copied verbatim. |
| `OrfCore.RewriteCodonAt` | modules/ORF/single_organism_optimization_method.py:37-40 | With three-letter codons, codon i >= skipped of the output is `aa_to_optimal_codon[protein[i]]`. |
| `OrfCore.RewriteLength` | modules/ORF/single_organism_optimization_method.py:37-40 | With three-letter codons, the output is the prefix plus three letters per rewritten position. |
| `OrfCore.OptimalCodonsEncode` | modules/ORF/single_organism_optimization_method.py:71-75 | Given synonymous codons consistent with the genetic code, every chosen codon translates to its amino acid. |
| `OrfCore.RewriteEncodes` | modules/ORF/single_organism_optimization_method.py:37-40 | Given such a table, the rewritten gene still encodes the protein positions done so far. |
| `OrfCore.StopPatchEncodes` | modules/ORF/single_organism_optimization_method.py:42-45 | Putting back the input's last codon in place of the rewritten one keeps the encoded protein. |
| `OrfCore.OptimizedEncodes` | modules/ORF/single_organism_optimization_method.py:37-45 | Given such a table, the optimised gene encodes the same protein as the input, with or without the stop patch. |
| `OrfCore.OptimizedKeepsPrefix` | modules/ORF/single_organism_optimization_method.py:35-45 | The skipped prefix survives the stop patch when the rewritten part is non-empty. |
| `OrfStrict.OptimalCodonsFor` | modules/ORF/single_organism_optimization_method.py:63-68 | The step raises the wrong-count error iff the wanted count is not 1, and it reports that count. |
| `OrfStrict.GetOptimalCodons` | modules/ORF/single_organism_optimization_method.py:58-77 | `_get_optimal_codons` yields `OptimalCodonsFor`: the count check, then the table for the profile keyed by the index's `str()`. |
| `OrfStrict.OptimizedSequence` | modules/ORF/single_organism_optimization_method.py:16-54 | What `optimize_sequence` returns or raises: the wrong-count error, or `Optimized` over the single wanted organism's table. Its properties are stated by `OptimizedCodons` and `OptimizedKeepsProtein`. |
| `OrfStrict.OptimizeSequence` | modules/ORF/single_organism_optimization_method.py:16-54 | The result is a function of gene, protein, organisms, index, skip count and codon table alone; `tuning_param` and `should_dedup_codons` do not affect it. |
| `OrfStrict.OptimizedCodons` | modules/ORF/single_organism_optimization_method.py:37-40 | A successful run had exactly one wanted organism. Every rewritten position holds a synonymous codon of greatest weight in that organism's profile. |
| `OrfStrict.OptimizedKeepsProtein` | modules/ORF/single_organism_optimization_method.py:37-45 | Given synonymous codons consistent with the genetic code, the output encodes the input's protein. |
| `OrfLenient.OptimalCodonsFor` | app/modules/ORF/single_organism_optimization_method.py:59-64 | With no wanted organism, the step fails at `wanted_organisms[0]`, and only then. |
| `OrfLenient.GetOptimalCodons` | app/modules/ORF/single_organism_optimization_method.py:54-72 | `_get_optimal_codons` yields `OptimalCodonsFor`, using the first wanted organism's profile keyed by the lower-cased index value. |
| `OrfLenient.OptimizedSequence` | app/modules/ORF/single_organism_optimization_method.py:15-51 | What this copy of `optimize_sequence` returns or raises, over the first wanted organism's table. Its properties are stated by `FirstWantedDecides`, `AgreesWithStrict` and `DiffersFromStrict`. |
| `OrfLenient.OptimizeSequence` | app/modules/ORF/single_organism_optimization_method.py:15-51 | The optimised gene or error, as in the strict copy but with this copy's organism choice. |
| `OrfLenient.FirstWantedDecides` | app/modules/ORF/single_organism_optimization_method.py:64 | Organisms after the first wanted one do not affect the table. |
| `OrfLenient.AgreesWithStrict` | app/modules/ORF/single_organism_optimization_method.py:59-67 | With exactly one wanted organism, and an index whose `str()` is its lower-cased value, both copies compute the same result. |
| `OrfLenient.DiffersFromStrict` | app/modules/ORF/single_organism_optimization_method.py:59-64 | With several wanted organisms the strict copy raises. This copy succeeds iff the first organism's table and the loop do. |
| `OrfLenient.ProfileKeyCaseInsensitive` | app/modules/ORF/single_organism_optimization_method.py:67 | Index values that agree once lower-cased select the same profile. |
| `DcubSequenceInput.SequenceOf` | ui/DCUB/components/dna-sequence-input.tsx:31-40 | The sequence the line loop accumulates. Its meaning is stated by `SequenceOfPlainLines` and `ParsedSequenceOfAccepted`. |
| `DcubSequenceInput.TitleOf` | ui/DCUB/components/dna-sequence-input.tsx:31-40 | The title the line loop keeps. Its meaning is stated by `TitleOfLastHeader` and `TitleWithoutHeader`. |
| `DcubSequenceInput.ParseFastaSequence` | ui/DCUB/components/dna-sequence-input.tsx:26-43 | The sequence and title are those the line functions give for the lines of the trimmed text. |
| `DcubSequenceInput.ParseLines` | ui/DCUB/components/dna-sequence-input.tsx:31-40 | The line loop accumulates every line's contribution in order and keeps the title of the last header. |
| `DcubSequenceInput.ParseLine` | ui/DCUB/components/dna-sequence-input.tsx:32-39 | A header line replaces the title with its trimmed text after `>`. Any other non-blank line appends its letters without whitespace, upper-cased. |
| `DcubSequenceInput.TitleOfLastHeader` | ui/DCUB/components/dna-sequence-input.tsx:33-35 | The title is the trimmed text after the `>` of the last header line. |
| `DcubSequenceInput.TitleWithoutHeader` | ui/DCUB/components/dna-sequence-input.tsx:33-35 | Without a header line the title is empty. |
| `DcubSequenceInput.SequenceOfPlainLines` | ui/DCUB/components/dna-sequence-input.tsx:36-38 | Without header lines, the parsed sequence is the joined lines without whitespace, upper-cased. |
| `DcubSequenceInput.ParsedSequenceOfAccepted` | ui/DCUB/components/dna-sequence-input.tsx:50-55 | On text the validator accepts, the parsed sequence equals the validator's cleaned content. |
| `DcubSequenceInput.FallbackNeverSucceeds` | ui/DCUB/components/dna-sequence-input.tsx:61-73 | The raw-sequence fallback never succeeds on non-blank text the validator rejected. |
| `DcubSequenceInput.TextChangeOutcome` | ui/DCUB/components/dna-sequence-input.tsx:50-82 | The sequence, info and error `handleTextChange` sets, branch by branch. Its meaning is stated by `TextChangeCases` and `FallbackNeverSucceeds`. |
| `DcubSequenceInput.TextChangeCases` | ui/DCUB/components/dna-sequence-input.tsx:45-82 | Three cases: blank text clears the sequence without an error; accepted text stores the validator's cleaned, non-empty IUPAC content; any other text clears the sequence and shows the validator's message. |
| `DcubSequenceInput.TextChange` | ui/DCUB/components/dna-sequence-input.tsx:50-82 | The handler's branches yield the sequence, info and error of `TextChangeOutcome`. |
| `DcubSequenceInput.UploadState` | ui/DCUB/components/dna-sequence-input.tsx:118-151 | The state the upload leaves once the file passed the name and size checks. Its meaning is stated by `UploadAccepted`; a failed read or rejected content leaves the sequence, file and text alone. |
| `DcubSequenceInput.ReadUpload` | ui/DCUB/components/dna-sequence-input.tsx:118-151 | From the read on, the upload yields `UploadState`: an error on a failed read or rejected content, the parsed file otherwise. |
| `DcubSequenceInput.UploadAccepted` | ui/DCUB/components/dna-sequence-input.tsx:131-141 | An accepted upload sets the file, stores the validator's cleaned content and clears the typed text. Without a header, the file name is the title. |
| `DcubSequenceInput.SequenceInput.constructor` | ui/DCUB/components/dna-sequence-input.tsx:16-23 | Every field starts empty, with no upload in progress. |
| `DcubSequenceInput.SequenceInput.HandleTextChange` | ui/DCUB/components/dna-sequence-input.tsx:45-83 | Drops the file, stores the raw text for display, and sets sequence, info and error as `TextChangeOutcome` says. |
| `DcubSequenceInput.SequenceInput.HandleFileUpload` | ui/DCUB/components/dna-sequence-input.tsx:85-152 | No file is a no-op. A wrong extension or a size over 10 MiB sets its error and nothing else. Otherwise the state becomes `UploadState`. |
| `DcubSequenceInput.SequenceInput.FinishUpload` | ui/DCUB/components/dna-sequence-input.tsx:143-146 | Ends the upload indicator and changes nothing else. |
| `DcubSequenceInput.SequenceInput.RemoveFile` | ui/DCUB/components/dna-sequence-input.tsx:154-163 | Clears the file, info, error, sequence and typed text. |
| `CommuniqueSequenceInput.TextChangeError` | ui/communique/components/dna-sequence-input.tsx:27-32 | The error `handleTextChange` shows. Its meaning is stated by `TextChangeErrorCases`. |
| `CommuniqueSequenceInput.TextError` | ui/communique/components/dna-sequence-input.tsx:27-32 | The validation branch yields the error `TextChangeError` defines. |
| `CommuniqueSequenceInput.TextChangeErrorCases` | ui/communique/components/dna-sequence-input.tsx:27-32 | After a text change the error is empty iff the text is blank or a valid FASTA record. Otherwise it is the validator's message. |
| `CommuniqueSequenceInput.RejectionMessage` | ui/communique/lib/validation.ts:4-28 | A rejected text always carries a non-empty message. |
| `CommuniqueSequenceInput.UploadState` | ui/communique/components/dna-sequence-input.tsx:67-90 | The state the upload leaves, as written, after the name and size checks. Its meaning is stated by `UploadStoreEffect` and `RejectedUploadStaysBusy`. |
| `CommuniqueSequenceInput.UploadStateFixed` | ui/communique/components/dna-sequence-input.tsx:67-90 | The same state with the indicator reset after rejected content. Its meaning is stated by `FixedUploadSettles` and `FixedAgrees`. |
| `CommuniqueSequenceInput.RejectedUploadStaysBusy` | ui/communique/components/dna-sequence-input.tsx:71-75 | As written, rejected content shows its error but leaves `isUploading` on, so "Choose File" stays disabled. |
| `CommuniqueSequenceInput.FixedUploadSettles` | ui/communique/components/dna-sequence-input.tsx:71-75 | Corrected: an upload that ends in an error leaves the indicator off. An accepted one sets the file and empties the typed sequence. |
| `CommuniqueSequenceInput.FixedAgrees` | ui/communique/components/dna-sequence-input.tsx:71-75 | The corrected handler differs from the original only in the indicator, and only after rejected content. |
| `CommuniqueSequenceInput.UploadStoreEffect` | ui/communique/components/dna-sequence-input.tsx:67-80 | An accepted upload stores the file and empties the sequence. A failed read or rejected content leaves both store fields unchanged and shows an error. |
| `CommuniqueSequenceInput.SequenceInput.constructor` | ui/communique/components/dna-sequence-input.tsx:16-21 | Every field starts empty, and a typed sequence and a file do not coexist. |
| `CommuniqueSequenceInput.SequenceInput.HandleTextChange` | ui/communique/components/dna-sequence-input.tsx:23-33 | Stores the text verbatim, drops the file and sets `TextChangeError`. Sequence and file stay exclusive. |
| `CommuniqueSequenceInput.SequenceInput.HandleFileUpload` | ui/communique/components/dna-sequence-input.tsx:35-91 | No file is a no-op. A wrong extension or a size over 10 MiB sets only its error. Otherwise the state is `UploadState`, which keeps the indicator on after rejected content. Sequence and file stay exclusive. |
| `CommuniqueSequenceInput.SequenceInput.HandleFileUploadFixed` | ui/communique/components/dna-sequence-input.tsx:35-91 | The same handler with the indicator reset after rejected content. The state is `UploadStateFixed`. |
| `CommuniqueSequenceInput.SequenceInput.FinishUpload` | ui/communique/components/dna-sequence-input.tsx:82-85 | Turns the indicator off and resets progress, changing nothing else. |
| `CommuniqueSequenceInput.SequenceInput.RemoveFile` | ui/communique/components/dna-sequence-input.tsx:93-99 | Clears the file and the error and leaves the typed sequence unchanged. |
| `Store.RemoveById` | ui/communique/lib/store.ts:66-74 | The survivors are exactly the entries whose id differs, and the list never grows. |
| `Store.RemoveByIdAppend` | ui/communique/lib/store.ts:68 | Removal works entry by entry, so survivors keep their order. |
| `Store.RemoveUnknownId` | ui/communique/lib/store.ts:68 | Removing an id no entry carries is a no-op. |
| `Store.RemoveByIdIdempotent` | ui/communique/lib/store.ts:68 | Removing twice is removing once. |
| `Store.ReplaceById` | ui/communique/lib/store.ts:76-84 | Length is kept, entries with the id are replaced, and all others are unchanged. |
| `Store.RemoveAfterReplace` | ui/communique/lib/store.ts:66-84 | Replacing by an organism with the same id, then removing the id, equals removing it directly. |
| `Store.Partialize` | ui/communique/lib/store.ts:94-101 | The persisted snapshot: every field but `sequenceFile`. What it keeps is stated by `PersistRoundTrip` and `PartializeDropsOnlyFile`. |
| `Store.Rehydrate` | ui/communique/lib/store.ts:92-101 | Rehydrating any snapshot gives a state without a file whose snapshot is that snapshot again. |
| `Store.PersistRoundTrip` | ui/communique/lib/store.ts:94-101 | Rehydrating the persisted snapshot restores every field but `sequenceFile`, which comes back null. |
| `Store.PartializeDropsOnlyFile` | ui/communique/lib/store.ts:94-101 | Two states have the same snapshot iff they differ at most in `sequenceFile`. |
| `Store.OptimizationStore.constructor` | ui/communique/lib/store.ts:38-51 | The store starts in the initial state. |
| `Store.OptimizationStore.SetDnaSequence` | ui/communique/lib/store.ts:53 | Only `dnaSequence` changes. |
| `Store.OptimizationStore.SetSequenceFile` | ui/communique/lib/store.ts:54 | Only `sequenceFile` changes. |
| `Store.OptimizationStore.AddWantedOrganism` | ui/communique/lib/store.ts:56-59 | The organism is appended to the wanted list, and nothing else changes. |
| `Store.OptimizationStore.AddUnwantedOrganism` | ui/communique/lib/store.ts:61-64 | The organism is appended to the unwanted list, and nothing else changes. |
| `Store.OptimizationStore.RemoveWantedOrganism` | ui/communique/lib/store.ts:66-69 | The wanted list becomes `RemoveById` of itself, and nothing else changes. |
| `Store.OptimizationStore.RemoveUnwantedOrganism` | ui/communique/lib/store.ts:71-74 | The unwanted list becomes `RemoveById` of itself, and nothing else changes. |
| `Store.OptimizationStore.UpdateWantedOrganism` | ui/communique/lib/store.ts:76-79 | The wanted list becomes `ReplaceById` of itself, and nothing else changes. |
| `Store.OptimizationStore.UpdateUnwantedOrganism` | ui/communique/lib/store.ts:81-84 | The unwanted list becomes `ReplaceById` of itself, and nothing else changes. |
| `Store.OptimizationStore.SetTuningParameter` | ui/communique/lib/store.ts:86 | Only `tuningParameter` changes. |
| `Store.OptimizationStore.SetOptimizationMethod` | ui/communique/lib/store.ts:87 | Only `optimizationMethod` changes. |
| `Store.OptimizationStore.SetCubIndex` | ui/communique/lib/store.ts:88 | Only `cubIndex` changes. |
| `Store.OptimizationStore.Reset` | ui/communique/lib/store.ts:90 | Restores "", null, [], [], 50, "single_codon_diff", "CAI". |
| `Store.OptimizationStore.Persisted` | ui/communique/lib/store.ts:94-101 | The persisted snapshot rehydrates to the current state without its file. |
| `OrganismList.DefaultPriority` | ui/communique/components/organism-list.tsx:42-47 | An empty list gives 50. |
| `OrganismList.DefaultPriorityBounds` | ui/communique/components/organism-list.tsx:44-46 | The rounded mean of a non-empty list lies between its smallest and largest priority. |
| `OrganismList.OptionalPath` | ui/communique/components/organism-list.tsx:56 | A blank expression path becomes undefined. Otherwise it is trimmed and non-blank. |
| `OrganismList.NewEntry` | ui/communique/components/organism-list.tsx:52-57 | The organism `handleAddOrganism` builds. Its normal form is stated by `NewEntryNormalised` and its validity by `DefaultedEntryValid`. |
| `OrganismList.NewEntryNormalised` | ui/communique/components/organism-list.tsx:52-57 | An added organism has the given id and a trimmed, non-blank genome path. A non-zero entered priority is kept; a missing or zero one falls back to the default. A blank expression path is left unset. |
| `OrganismList.DefaultedEntryValid` | ui/communique/components/organism-list.tsx:52-57 | Suppose the list's priorities all lie in 1..100 and the added organism has a path and the default priority. Then it passes the organism validator. |
| `OrganismList.FindById` | ui/communique/components/organism-list.tsx:72-73 | A found organism has the id and is the entry at the first index holding it. The search fails iff no entry has the id. |
| `OrganismList.FindByIdFirst` | ui/communique/components/organism-list.tsx:72 | `find` yields the entry at the first index holding the id. |
| `OrganismList.WithPath` | ui/communique/components/organism-list.tsx:75-78 | Sets the genome path or the expression path, whichever the upload is for, and nothing else. |
| `OrganismList.UploadedList` | ui/communique/components/organism-list.tsx:67-81 | The list `handleFileUpload` leaves. Its meaning is stated by `UploadedListEffect`, `UploadedCopiesFirst` and `UploadedUniqueEntry`. |
| `OrganismList.UploadedListEffect` | ui/communique/components/organism-list.tsx:67-81 | An upload sets "/uploads/" + name on the entries with the id and leaves every other entry alone. An unknown id is a no-op. |
| `OrganismList.UploadedCopiesFirst` | ui/communique/components/organism-list.tsx:72-80 | Every entry holding the id becomes the first such entry with the path set. With duplicate ids, later entries therefore take the first entry's priority and paths. |
| `OrganismList.UploadedUniqueEntry` | ui/communique/components/organism-list.tsx:75-80 | With a unique id, the entry gets the chosen path and keeps its id, priority and other path. |
| `OrganismList.EditPriority` | ui/communique/components/organism-list.tsx:228-233 | A card's priority edit keeps the other fields. A non-numeric or zero entry becomes 50, so the priority is never 0. |
| `OrganismList.EditExpressionPath` | ui/communique/components/organism-list.tsx:242-248 | A card's expression-path edit keeps the other fields. Empty text becomes undefined; any other text is stored as typed. |
| `OrganismList.CardEditReplacesOwnEntry` | ui/communique/components/organism-list.tsx:99-104 | The store update a card edit triggers replaces that organism and leaves entries with other ids alone. |
| `OrganismList.OrganismListView.constructor` | ui/communique/components/organism-list.tsx:19-40 | The component starts with an empty form over the chosen store list. |
| `OrganismList.OrganismListView.HandleAddOrganism` | ui/communique/components/organism-list.tsx:49-65 | A blank genome path changes nothing. Otherwise the normalised organism, with the list's default priority, is appended to this list only, and the form is reset. |
| `OrganismList.OrganismListView.HandleFileUpload` | ui/communique/components/organism-list.tsx:67-81 | This list becomes `UploadedList` of itself, and the other list is untouched. |
| `ResultsScreen.RunLength` | ui/DCUB/components/results-screen.tsx:72 | `.{1,n}` matches as many non-terminator characters as it can, at most n, and at least one when the first character is not a line terminator. |
| `ResultsScreen.Chunks` | ui/DCUB/components/results-screen.tsx:72 | Every match has 1 to `width` characters and no line terminator. |
| `ResultsScreen.ChunksConcat` | ui/DCUB/components/results-screen.tsx:72 | The matches put back together are the text without its line terminators. |
| `ResultsScreen.ChunksFull` | ui/DCUB/components/results-screen.tsx:72 | On text without line terminators, every match but the last is a full line. |
| `ResultsScreen.ChunksEmpty` | ui/DCUB/components/results-screen.tsx:72 | There is no match iff the text is empty or only line terminators. |
| `ResultsScreen.FormatSequence` | ui/DCUB/components/results-screen.tsx:71-73 | `formatSequence`: the matches joined by newlines, or the text itself when nothing matched. Its meaning is stated by `FormatSequenceLines`, `ChunksConcat` and `ChunksEmpty`. |
| `ResultsScreen.FormatSequenceLines` | ui/DCUB/components/results-screen.tsx:71-73 | On newline-free text, empty text comes back unchanged. Otherwise every line is 1..60 characters, all but the last exactly 60, and the lines joined give the text back. |
| `ResultsScreen.ScoreColor` | ui/DCUB/components/results-screen.tsx:75-90 | `getScoreColor` for the three score kinds. Its meaning is stated by `ScoreColorMonotone`, `RatioColorByDistance` and `ScoreColorThresholds`. |
| `ResultsScreen.ScoreColorMonotone` | ui/DCUB/components/results-screen.tsx:75-90 | For the average-distance and weakest-link scores, a higher score never gets a worse colour. |
| `ResultsScreen.RatioColorByDistance` | ui/DCUB/components/results-screen.tsx:81-85 | The ratio's colour depends only on its distance from 50, and a nearer ratio never gets a worse colour. |
| `ResultsScreen.ScoreColorThresholds` | ui/DCUB/components/results-screen.tsx:75-90 | The boundary values 0.8/0.6, 40/60/30/70 and 0.7/0.5 take the better colour: the bounds are inclusive. |
| `ResultsScreen.BadgeVariant` | ui/DCUB/components/results-screen.tsx:94-99 | "default" iff green, "secondary" iff yellow, "destructive" iff red. |
| `ResultsScreen.MethodLabel` | ui/DCUB/components/results-screen.tsx:282 | Same length as the name. Every `_` becomes a space and every other character is upper-cased. |
| `ResultsScreen.MethodLabelNormal` | ui/DCUB/components/results-screen.tsx:282 | A label has no `_` and no lower-case letter, and relabelling it changes nothing. |
| `LoadingScreen.FormatTime` | ui/DCUB/components/loading-screen.tsx:49-53 | The clock has at least four characters, with a colon three from the end. |
| `LoadingScreen.SecondsField` | ui/DCUB/components/loading-screen.tsx:51-52 | Seconds below 60, padded, form two digits that read back as the seconds. |
| `LoadingScreen.FormatTimeFields` | ui/DCUB/components/loading-screen.tsx:49-53 | The digits before the colon read as seconds / 60. The two after it read as seconds % 60. |
| `LoadingScreen.FormatTimeRoundTrip` | ui/DCUB/components/loading-screen.tsx:49-53 | Reading the clock back gives minutes * 60 + seconds, which is exactly the elapsed seconds. |
| `LoadingScreen.StepFor` | ui/DCUB/components/loading-screen.tsx:34-37 | The step is always a valid index into the four steps. |
| `LoadingScreen.StepForMonotone` | ui/DCUB/components/loading-screen.tsx:34-37 | More progress never shows an earlier step. |
| `LoadingScreen.Loading.constructor` | ui/DCUB/components/loading-screen.tsx:9-11 | Progress, step and clock start at 0. |
| `LoadingScreen.Loading.Tick` | ui/DCUB/components/loading-screen.tsx:29-41 | A tick takes the step from the unclamped sum and clamps progress to 95. Progress stays in [0,95] and never decreases, and the step never decreases. |
| `LoadingScreen.Loading.ClockTick` | ui/DCUB/components/loading-screen.tsx:24-26 | The clock becomes the whole seconds elapsed, and nothing else changes. |

## Left out

- The Electron main processes and preload scripts, the FastAPI server, the file-copy script and the submit handler's `fetch` and base64 conversion: these are I/O and process orchestration.
- Clipboard writes, downloads and all JSX rendering are not modelled.
- `setTimeout` and `setInterval` scheduling is not modelled:
  - The upload indicator's timed end is a separate method (`FinishUpload`).
  - The simulated `uploadProgress` interval (+10 every 100 ms, capped at 90) is not modelled. The DCUB model has no progress field.
  - The loading screen's intervals are the methods `Tick` and `ClockTick`.
- Values from outside the code become parameters:
  - `Date.now()` (organism ids and elapsed time);
  - `Math.random()` (the loading increment, any real in [0, 2));
  - `file.text()` (the file content, `None` when the read throws).
- Letter case is ASCII only. `toUpperCase` and `toLowerCase` on non-ASCII letters are not modelled.
- JavaScript numbers are modelled as `int` for priorities and `real` for scores, progress and the tuning parameter:
  - `NaN` from `parseInt` is `None`;
  - `NaN` and fractional priorities in the add form are not modelled.
- `translate`, `synonymous_codons` and the organisms' CUB profiles are parameters.
  - `translate`'s output is the `protein` argument, and `Encodes` states what it means.
  - Profiles are ordered lists of codon weights, so `max` keeps the first of equal weights.
  - Python dict iteration order over amino acids is not modelled; it cannot change the result.
- `skipped_codons_num` is a `nat`. Python's negative-index slicing for a negative count is not modelled.
- `run_summary`, `Timer`, the logger's warning and error messages, and numba's `@jit` are left out.
- The unused parameters `optimization_method`, `tuning_param` and `should_dedup_codons` are accepted and ignored, or dropped.
- The DCUB raw-sequence fallback is modelled as written. `FallbackNeverSucceeds` shows it is dead code.
- Some handler logic sits in heap-free helpers that the class methods call, because the class methods only assign fields:
  - the branches of the DCUB text-change and upload handlers (`TextChange`, `ReadUpload`);
  - the communique text-change check (`TextError`);
  - the DCUB line loop (`ParseLines`).
- The card's genome-path field (ui/communique/components/organism-list.tsx:201) stores its text as typed, with no normalisation. It is a plain record update followed by `ReplaceById`, so it has no function of its own.
- The DCUB advanced-options panel's reset repeats the store's initial values and is not part of this model.
- `DcubValidation.ValidateGenBankPath`: its own contract states only the error messages. The accepted case holds by definition, and `GenBankPathCaseInsensitive` carries the case property.
- `OrganismList.DefaultPriority`: its contract states only the empty case. The non-empty case is stated by `DefaultPriorityBounds`.

## Findings

| source | as written | input that shows it | evidently intended | confidence | as-written member | corrected member |
|---|---|---|---|---|---|---|
| ui/communique/components/dna-sequence-input.tsx:71-75 | The handler returns after rejected file content without clearing `isUploading` or resetting `uploadProgress`. | A file `x.fasta` whose content is `ACGT`, with no header. The validator rejects it, and `isUploading` stays true. | Reset the indicator as the read-failure path (lines 86-89) and the DCUB component (lines 123-127) do. Then a rejected file can be replaced. | not executed | `CommuniqueSequenceInput.RejectedUploadStaysBusy` | `CommuniqueSequenceInput.FixedUploadSettles` |
