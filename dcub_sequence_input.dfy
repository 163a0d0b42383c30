/**
 * The DCUB sequence-input component (`ui/DCUB/components/dna-sequence-input.tsx`):
 * FASTA parsing and the text, upload and remove handlers over the
 * component's state and the two store fields it writes.
 */
module DcubSequenceInput {
  import opened Common
  import opened Text
  import opened Types
  import opened Fasta
  import DcubValidation

  /** `sequenceInfo`: the title shown and the sequence length. */
  datatype SequenceInfo = SequenceInfo(title: string, length: nat)

  const NotFasta: string := "Please upload a FASTA file (.fasta or .fa)"
  const TooLarge: string := "File size must be less than 10MB"
  const ReadFailed: string := "Error reading file. Please try again."
  const MaxFileSize: nat := 10 * 1024 * 1024

  // ------------------------------------------------------------ parsing

  /** What one line adds to the parsed sequence: nothing for a header or a
    * blank line, else its letters without whitespace, upper-cased. */
  function Contribution(line: string): string {
    var trimmed := Trim(line);
    if StartsWith(trimmed, ">") then []
    else if trimmed != [] then ToUpper(RemoveWhitespace(trimmed))
    else []
  }

  /** The sequence `parseFastaSequence` accumulates over `lines`. */
  function SequenceOf(lines: seq<string>): string {
    if lines == [] then [] else Contribution(lines[0]) + SequenceOf(lines[1..])
  }

  /** The title `parseFastaSequence` keeps after `lines`: that of the last header. */
  function TitleOf(lines: seq<string>): string {
    if lines == [] then []
    else
      var trimmed := Trim(lines[|lines| - 1]);
      if StartsWith(trimmed, ">") then Trim(trimmed[1..]) else TitleOf(lines[..|lines| - 1])
  }

  /** The sequence and the title parsed from the lines of the trimmed text. */
  function ParsedSequence(text: string): string {
    SequenceOf(Split(Trim(text), '\n'))
  }

  function ParsedTitle(text: string): string {
    TitleOf(Split(Trim(text), '\n'))
  }

  /** `parseFastaSequence`: one pass over the lines of the trimmed text. */
  method ParseFastaSequence(fastaText: string) returns (sequence: string, title: string)
    ensures sequence == ParsedSequence(fastaText)
    ensures title == ParsedTitle(fastaText)
  {
    var lines := Split(Trim(fastaText), '\n');
    sequence, title := ParseLines(lines);
  }

  /** The line loop of `parseFastaSequence`. */
  method ParseLines(lines: seq<string>) returns (sequence: string, title: string)
    ensures sequence == SequenceOf(lines)
    ensures title == TitleOf(lines)
  {
    title := "";
    sequence := "";
    var i := 0;
    while i < |lines|
      invariant 0 <= i <= |lines|
      invariant sequence + SequenceOf(lines[i..]) == SequenceOf(lines)
      invariant title == TitleOf(lines[..i])
    {
      SequenceStep(lines, i);
      TitleStep(lines, i);
      ghost var before := sequence;
      sequence, title := ParseLine(sequence, title, lines[i]);
      AppendAssociative(before, Contribution(lines[i]), SequenceOf(lines[i + 1..]));
      i := i + 1;
    }
    assert lines[..i] == lines;
    assert lines[i..] == [];
  }

  /** The body of the line loop of `parseFastaSequence`: a header line sets
    * the title, any other non-blank line extends the sequence. */
  method ParseLine(sequence: string, title: string, line: string) returns (sequence': string, title': string)
    ensures sequence' == sequence + Contribution(line)
    ensures title' == if StartsWith(Trim(line), ">") then Trim(Trim(line)[1..]) else title
  {
    sequence', title' := sequence, title;
    var trimmedLine := Trim(line);
    if StartsWith(trimmedLine, ">") {
      title' := Trim(trimmedLine[1..]);
    } else if trimmedLine != [] {
      sequence' := sequence + ToUpper(RemoveWhitespace(trimmedLine));
    }
  }

  lemma AppendAssociative(a: string, b: string, c: string)
    ensures a + (b + c) == (a + b) + c
  {
  }

  lemma SequenceStep(lines: seq<string>, i: nat)
    requires i < |lines|
    ensures SequenceOf(lines[i..]) == Contribution(lines[i]) + SequenceOf(lines[i + 1..])
  {
    assert lines[i..][1..] == lines[i + 1..];
  }

  lemma TitleStep(lines: seq<string>, i: nat)
    requires i < |lines|
    ensures TitleOf(lines[..i + 1]) ==
      if StartsWith(Trim(lines[i]), ">") then Trim(Trim(lines[i])[1..]) else TitleOf(lines[..i])
  {
    assert lines[..i + 1][..i] == lines[..i];
  }

  /** The title is that of the last header line. */
  lemma {:induction false} TitleOfLastHeader(lines: seq<string>, k: nat)
    requires k < |lines| && StartsWith(Trim(lines[k]), ">")
    requires forall j :: k < j < |lines| ==> !StartsWith(Trim(lines[j]), ">")
    ensures TitleOf(lines) == Trim(Trim(lines[k])[1..])
  {
    if k < |lines| - 1 {
      var prefix := lines[..|lines| - 1];
      assert prefix[k] == lines[k];
      forall j | k < j < |prefix| ensures !StartsWith(Trim(prefix[j]), ">") {
        assert prefix[j] == lines[j];
      }
      TitleOfLastHeader(prefix, k);
    }
  }

  /** Without a header line the title is empty. */
  lemma {:induction false} TitleWithoutHeader(lines: seq<string>)
    requires forall j :: 0 <= j < |lines| ==> !StartsWith(Trim(lines[j]), ">")
    ensures TitleOf(lines) == []
  {
    if lines != [] {
      var prefix := lines[..|lines| - 1];
      forall j | 0 <= j < |prefix| ensures !StartsWith(Trim(prefix[j]), ">") {
        assert prefix[j] == lines[j];
      }
      TitleWithoutHeader(prefix);
    }
  }

  /** Without header lines, parsing amounts to removing whitespace from the
    * joined lines and upper-casing them. */
  lemma {:induction false} SequenceOfPlainLines(lines: seq<string>)
    requires forall j :: 0 <= j < |lines| ==> !StartsWith(Trim(lines[j]), ">")
    ensures SequenceOf(lines) == ToUpper(RemoveWhitespace(Concat(lines)))
  {
    if lines != [] {
      var first := lines[0];
      var rest := lines[1..];
      forall j | 0 <= j < |rest| ensures !StartsWith(Trim(rest[j]), ">") {
        assert rest[j] == lines[j + 1];
      }
      SequenceOfPlainLines(rest);
      RemoveWhitespaceConcat(first, Concat(rest));
      ToUpperConcat(RemoveWhitespace(first), RemoveWhitespace(Concat(rest)));
      RemoveWhitespaceOfTrim(first);
      if Trim(first) == [] {
        RemoveWhitespaceOfBlank(first);
      }
    }
  }

  /** Text without a `>` anywhere has no line opening with `>`. */
  lemma NoHeaderLines(lines: seq<string>)
    requires '>' !in Concat(lines)
    ensures forall j :: 0 <= j < |lines| ==> !StartsWith(Trim(lines[j]), ">")
  {
    forall j | 0 <= j < |lines| ensures !StartsWith(Trim(lines[j]), ">") {
      StartsWithChar(Trim(lines[j]), '>');
      if Trim(lines[j]) != [] && Trim(lines[j])[0] == '>' {
        TrimChars(lines[j], '>');
        ConcatChars(lines, j, '>');
      }
    }
  }

  /** Text that is IUPAC once cleaned holds no `>`. */
  lemma NoHeaderMark(s: string)
    requires AllIupac(ToUpper(RemoveWhitespace(s)))
    ensures '>' !in s
  {
    if '>' in s {
      HeaderMarkNotIupac(s);
    }
  }

  /** On text the validator accepts, the parsed sequence is exactly the
    * validator's cleaned content. */
  lemma ParsedSequenceOfAccepted(text: string)
    requires DcubValidation.ValidateFastaSequence(text).isValid
    ensures ParsedSequence(text) == SequenceBody(text)
  {
    var lines := Split(Trim(text), '\n');
    DcubValidation.FastaValidity(text);
    HeaderLine(text);
    BodyOfLines(text);
    if HasHeader(text) {
      var rest := lines[1..];
      NoHeaderMark(Concat(rest));
      NoHeaderLines(rest);
      SequenceOfPlainLines(rest);
      TrimFirst(lines[0]);
      StartsWithChar(lines[0], '>');
      StartsWithChar(Trim(lines[0]), '>');
      assert Contribution(lines[0]) == [];
    } else {
      NoHeaderMark(Concat(lines));
      NoHeaderLines(lines);
      SequenceOfPlainLines(lines);
    }
  }

  /** The raw-sequence fallback of `handleTextChange` (the whole text,
    * whitespace removed and upper-cased, is non-empty IUPAC). */
  predicate RawFallbackSucceeds(value: string) {
    var clean := ToUpper(RemoveWhitespace(value));
    AllIupac(clean) && |clean| > 0
  }

  /** The fallback never succeeds on non-blank text the validator rejected:
    * without a header its test is the validator's own, and with one the `>`
    * survives cleaning. */
  lemma FallbackNeverSucceeds(value: string)
    requires !IsBlank(value) && !DcubValidation.ValidateFastaSequence(value).isValid
    ensures !RawFallbackSucceeds(value)
  {
    DcubValidation.FastaValidity(value);
    if HasHeader(value) {
      TrimChars(value, '>');
      HeaderMarkNotIupac(value);
    }
  }

  // ------------------------------------------------------------ handlers

  /** The store fields and component state `handleTextChange` sets from non-empty
    * or blank text: `dnaSequence`, `sequenceInfo` and `validationError`. */
  datatype TextOutcome = TextOutcome(dnaSequence: string, sequenceInfo: Option<SequenceInfo>, validationError: string)

  function TextChangeOutcome(value: string): TextOutcome {
    if IsBlank(value) then TextOutcome("", None, "")
    else
      var validation := DcubValidation.ValidateFastaSequence(value);
      if validation.isValid then
        var title := ParsedTitle(value);
        TextOutcome(ParsedSequence(value),
                    Some(SequenceInfo(if title == [] then "Untitled sequence" else title, |ParsedSequence(value)|)), "")
      else if RawFallbackSucceeds(value) then
        var clean := ToUpper(RemoveWhitespace(value));
        TextOutcome(clean, Some(SequenceInfo("Raw sequence (no header)", |clean|)), "")
      else TextOutcome("", None, validation.error.GetOr(""))
  }

  /** The outcome of a text change: blank text clears the sequence silently,
    * accepted text stores exactly the validator's cleaned (IUPAC) content
    * with the last header's title (or "Untitled sequence") and its length,
    * and any other text clears the sequence and shows the validator's error. */
  lemma TextChangeCases(value: string)
    ensures var o := TextChangeOutcome(value);
      && (IsBlank(value) ==> o == TextOutcome("", None, ""))
      && (DcubValidation.ValidateFastaSequence(value).isValid ==>
            o.dnaSequence == SequenceBody(value) && AllIupac(o.dnaSequence) && o.dnaSequence != []
            && o.validationError == ""
            && o.sequenceInfo == Some(SequenceInfo(
                 if ParsedTitle(value) == [] then "Untitled sequence" else ParsedTitle(value),
                 |SequenceBody(value)|)))
      && (!IsBlank(value) && !DcubValidation.ValidateFastaSequence(value).isValid ==>
            o == TextOutcome("", None, DcubValidation.ValidateFastaSequence(value).error.value))
  {
    DcubValidation.FastaValidity(value);
    if !IsBlank(value) {
      if DcubValidation.ValidateFastaSequence(value).isValid {
        ParsedSequenceOfAccepted(value);
      } else {
        FallbackNeverSucceeds(value);
      }
    }
  }

  /** The branches of `handleTextChange`, giving the values it stores. */
  method TextChange(value: string) returns (outcome: TextOutcome)
    ensures outcome == TextChangeOutcome(value)
  {
    if !IsBlank(value) {
      var validation := DcubValidation.ValidateFastaSequence(value);
      if validation.isValid {
        var sequence, title := ParseFastaSequence(value);
        outcome := TextOutcome(sequence, Some(SequenceInfo(if title == [] then "Untitled sequence" else title, |sequence|)), "");
      } else {
        var cleanSequence := ToUpper(RemoveWhitespace(value));
        if AllIupac(cleanSequence) && |cleanSequence| > 0 {
          outcome := TextOutcome(cleanSequence, Some(SequenceInfo("Raw sequence (no header)", |cleanSequence|)), "");
        } else {
          outcome := TextOutcome("", None, validation.error.GetOr(""));
        }
      }
    } else {
      outcome := TextOutcome("", None, "");
    }
  }

  /** The `try` block of `handleFileUpload` from the read on, giving the
    * values it leaves in the component and the store. */
  method ReadUpload(file: FileRef, content: Option<string>,
                    displayText: string, dnaSequence: string, sequenceFile: Option<FileRef>)
    returns (view: UploadView)
    ensures view == UploadState(file, content, displayText, dnaSequence, sequenceFile)
  {
    if content.None? {
      return UploadView(displayText, dnaSequence, sequenceFile, None, ReadFailed, false);
    }
    var text := content.value;
    var validation := DcubValidation.ValidateFastaSequence(text);
    if !validation.isValid {
      return UploadView(displayText, dnaSequence, sequenceFile, None, validation.error.GetOr("Invalid FASTA format"), false);
    }
    var sequence, title := ParseFastaSequence(text);
    view := UploadView("", sequence, Some(file), Some(SequenceInfo(if title == [] then file.name else title, |sequence|)), "", true);
  }

  /** The component's state together with the store's `dnaSequence` and `sequenceFile`. */
  class SequenceInput {
    var displayText: string
    var dnaSequence: string
    var sequenceFile: Option<FileRef>
    var sequenceInfo: Option<SequenceInfo>
    var validationError: string
    var isUploading: bool

    constructor ()
      ensures displayText == "" && dnaSequence == "" && sequenceFile == None
      ensures sequenceInfo == None && validationError == "" && !isUploading
    {
      displayText := "";
      dnaSequence := "";
      sequenceFile := None;
      sequenceInfo := None;
      validationError := "";
      isUploading := false;
    }

    /** `handleTextChange`. */
    method HandleTextChange(value: string)
      modifies this
      ensures sequenceFile == None && displayText == value && isUploading == old(isUploading)
      ensures TextOutcome(dnaSequence, sequenceInfo, validationError) == TextChangeOutcome(value)
    {
      sequenceFile := None;
      displayText := value;
      var outcome := TextChange(value);
      dnaSequence := outcome.dnaSequence;
      sequenceInfo := outcome.sequenceInfo;
      validationError := outcome.validationError;
    }

    /** `handleFileUpload` up to the end of its `try`: `file` is the chosen
      * file, if any, and `content` what reading it gave (`None` when the
      * read failed). */
    method HandleFileUpload(file: Option<FileRef>, content: Option<string>)
      modifies this
      ensures file.None? ==> unchanged(this)
      ensures file.Some? && !IsFastaName(file.value.name) ==>
        validationError == NotFasta
        && displayText == old(displayText) && dnaSequence == old(dnaSequence)
        && sequenceFile == old(sequenceFile) && sequenceInfo == old(sequenceInfo)
        && isUploading == old(isUploading)
      ensures file.Some? && IsFastaName(file.value.name) && file.value.size > MaxFileSize ==>
        validationError == TooLarge
        && displayText == old(displayText) && dnaSequence == old(dnaSequence)
        && sequenceFile == old(sequenceFile) && sequenceInfo == old(sequenceInfo)
        && isUploading == old(isUploading)
      ensures file.Some? && IsFastaName(file.value.name) && file.value.size <= MaxFileSize ==>
        UploadState(file.value, content,
                    old(displayText), old(dnaSequence), old(sequenceFile)) ==
        UploadStateOf(displayText, dnaSequence, sequenceFile, sequenceInfo, validationError, isUploading)
    {
      if file.None? {
        return;
      }
      var f := file.value;
      if !EndsWith(ToLower(f.name), ".fasta") && !EndsWith(ToLower(f.name), ".fa") {
        validationError := NotFasta;
        return;
      }
      if f.size > MaxFileSize {
        validationError := TooLarge;
        return;
      }
      isUploading := true;
      validationError := "";
      sequenceInfo := None;
      var view := ReadUpload(f, content, displayText, dnaSequence, sequenceFile);
      displayText, dnaSequence, sequenceFile := view.displayText, view.dnaSequence, view.sequenceFile;
      sequenceInfo, validationError, isUploading := view.sequenceInfo, view.validationError, view.isUploading;
    }

    /** The `setTimeout` callback that ends a successful upload. */
    method FinishUpload()
      modifies this
      ensures !isUploading
      ensures displayText == old(displayText) && dnaSequence == old(dnaSequence)
      ensures sequenceFile == old(sequenceFile) && sequenceInfo == old(sequenceInfo)
      ensures validationError == old(validationError)
    {
      isUploading := false;
    }

    /** `removeFile`. */
    method RemoveFile()
      modifies this
      ensures sequenceFile == None && sequenceInfo == None && validationError == ""
      ensures dnaSequence == "" && displayText == "" && isUploading == old(isUploading)
    {
      sequenceFile := None;
      sequenceInfo := None;
      validationError := "";
      dnaSequence := "";
      displayText := "";
    }
  }

  /** The file-type test: the lower-cased name ends in `.fasta` or `.fa`. */
  predicate IsFastaName(name: string) {
    EndsWith(ToLower(name), ".fasta") || EndsWith(ToLower(name), ".fa")
  }

  /** The upload-relevant state: every field the upload handler may set. */
  datatype UploadView = UploadView(
    displayText: string, dnaSequence: string, sequenceFile: Option<FileRef>,
    sequenceInfo: Option<SequenceInfo>, validationError: string, isUploading: bool)

  function UploadStateOf(displayText: string, dnaSequence: string, sequenceFile: Option<FileRef>,
                         sequenceInfo: Option<SequenceInfo>, validationError: string, isUploading: bool): UploadView {
    UploadView(displayText, dnaSequence, sequenceFile, sequenceInfo, validationError, isUploading)
  }

  /** The state after an upload of a FASTA-named file within the size limit:
    * a failed read or rejected content leaves the sequence, the file and the
    * text alone and shows an error; accepted content becomes the sequence. */
  function UploadState(file: FileRef, content: Option<string>,
                       displayText: string, dnaSequence: string, sequenceFile: Option<FileRef>): UploadView {
    if content.None? then UploadView(displayText, dnaSequence, sequenceFile, None, ReadFailed, false)
    else
      var validation := DcubValidation.ValidateFastaSequence(content.value);
      if !validation.isValid then
        UploadView(displayText, dnaSequence, sequenceFile, None, validation.error.GetOr("Invalid FASTA format"), false)
      else
        var title := ParsedTitle(content.value);
        UploadView("", ParsedSequence(content.value), Some(file),
                   Some(SequenceInfo(if title == [] then file.name else title, |ParsedSequence(content.value)|)), "", true)
  }

  /** An accepted upload stores the validator's cleaned content, clears the
    * typed text, and shows the last header's title, or the file name when
    * that title is empty or there is no header line, with the content's
    * length. */
  lemma UploadAccepted(file: FileRef, text: string, displayText: string, dnaSequence: string,
                       sequenceFile: Option<FileRef>)
    requires DcubValidation.ValidateFastaSequence(text).isValid
    ensures var v := UploadState(file, Some(text), displayText, dnaSequence, sequenceFile);
      && v.dnaSequence == SequenceBody(text) && AllIupac(v.dnaSequence)
      && v.sequenceFile == Some(file) && v.displayText == "" && v.validationError == ""
      && v.sequenceInfo == Some(SequenceInfo(
           if ParsedTitle(text) == [] then file.name else ParsedTitle(text), |SequenceBody(text)|))
      && (!HasHeader(text) ==> v.sequenceInfo == Some(SequenceInfo(file.name, |SequenceBody(text)|)))
  {
    ParsedSequenceOfAccepted(text);
    DcubValidation.FastaValidity(text);
    if !HasHeader(text) {
      var lines := Split(Trim(text), '\n');
      BodyOfLines(text);
      NoHeaderMark(Concat(lines));
      NoHeaderLines(lines);
      TitleWithoutHeader(lines);
    }
  }
}
