/**
 * The communique sequence-input component
 * (`ui/communique/components/dna-sequence-input.tsx`): the text, upload and
 * remove handlers over the store's `dnaSequence` and `sequenceFile` and the
 * component's `validationError`, `isUploading` and `uploadProgress`.
 */
module CommuniqueSequenceInput {
  import opened Common
  import opened Text
  import opened Types
  import opened Fasta
  import CommuniqueValidation

  const NotFasta: string := "Please upload a FASTA file (.fasta or .fa)"
  const TooLarge: string := "File size must be less than 10MB"
  const ReadFailed: string := "Error reading file. Please try again."
  const InvalidFormat: string := "Invalid FASTA format"
  const MaxFileSize: nat := 10 * 1024 * 1024

  /** The file-type test: the lower-cased name ends in `.fasta` or `.fa`. */
  predicate IsFastaName(name: string) {
    EndsWith(ToLower(name), ".fasta") || EndsWith(ToLower(name), ".fa")
  }

  /** The error `handleTextChange` shows for `value`. */
  function TextChangeError(value: string): string {
    if IsBlank(value) then ""
    else
      var validation := CommuniqueValidation.ValidateFastaSequence(value);
      if validation.isValid then "" else validation.error.GetOr("")
  }

  /** The validation branch of `handleTextChange`. */
  method TextError(value: string) returns (error: string)
    ensures error == TextChangeError(value)
  {
    if !IsBlank(value) {
      var validation := CommuniqueValidation.ValidateFastaSequence(value);
      error := if validation.isValid then "" else validation.error.GetOr("");
    } else {
      error := "";
    }
  }

  /** After a text change the error is empty exactly when the text is blank or
    * a valid FASTA record; otherwise it is the validator's message. */
  lemma TextChangeErrorCases(value: string)
    ensures TextChangeError(value) == "" <==>
      IsBlank(value)
      || (HasHeader(value) && SequenceBody(value) != [] && AllIupac(SequenceBody(value)))
    ensures !IsBlank(value) && !CommuniqueValidation.ValidateFastaSequence(value).isValid ==>
      TextChangeError(value) == CommuniqueValidation.ValidateFastaSequence(value).error.value
  {
    CommuniqueValidation.FastaValidity(value);
  }

  /** A rejected text always has a non-empty message. */
  lemma RejectionMessage(text: string)
    requires !CommuniqueValidation.ValidateFastaSequence(text).isValid
    ensures CommuniqueValidation.ValidateFastaSequence(text).error.value != ""
  {
    CommuniqueValidation.FastaValidity(text);
  }

  /** The fields a file upload may set. */
  datatype UploadView = UploadView(
    dnaSequence: string, sequenceFile: Option<FileRef>, validationError: string,
    isUploading: bool, uploadProgress: nat)

  /** The state `handleFileUpload` leaves, as written, for a FASTA-named file
    * within the size limit whose content read as `content` (`None`: the read
    * failed). Rejected content returns early without clearing `isUploading`. */
  function UploadState(file: FileRef, content: Option<string>,
                       dnaSequence: string, sequenceFile: Option<FileRef>): UploadView {
    if content.None? then UploadView(dnaSequence, sequenceFile, ReadFailed, false, 0)
    else
      var validation := CommuniqueValidation.ValidateFastaSequence(content.value);
      if !validation.isValid then
        UploadView(dnaSequence, sequenceFile, validation.error.GetOr(InvalidFormat), true, 0)
      else UploadView("", Some(file), "", true, 100)
  }

  /** The same handler with the indicator reset on rejected content, as the
    * read-failure path and the DCUB component both do. */
  function UploadStateFixed(file: FileRef, content: Option<string>,
                            dnaSequence: string, sequenceFile: Option<FileRef>): UploadView {
    if content.None? then UploadView(dnaSequence, sequenceFile, ReadFailed, false, 0)
    else
      var validation := CommuniqueValidation.ValidateFastaSequence(content.value);
      if !validation.isValid then
        UploadView(dnaSequence, sequenceFile, validation.error.GetOr(InvalidFormat), false, 0)
      else UploadView("", Some(file), "", true, 100)
  }

  /** "Choose File" is enabled: no upload in progress and no typed sequence
    * (the button is only shown while no file is set). */
  predicate CanChooseFile(v: UploadView) {
    v.sequenceFile.None? && !v.isUploading && IsBlank(v.dnaSequence)
  }

  /** As written, rejected content shows its error but leaves the upload
    * indicator on, so "Uploading..." stays and "Choose File" stays disabled. */
  lemma RejectedUploadStaysBusy(file: FileRef, text: string, dnaSequence: string,
                                sequenceFile: Option<FileRef>)
    requires !CommuniqueValidation.ValidateFastaSequence(text).isValid
    ensures var v := UploadState(file, Some(text), dnaSequence, sequenceFile);
      v.validationError != "" && v.isUploading && !CanChooseFile(v)
  {
    RejectionMessage(text);
  }

  /** Corrected: an upload that ends with an error never leaves the indicator
    * on, and a rejected file can be replaced by choosing another one. */
  lemma FixedUploadSettles(file: FileRef, content: Option<string>, dnaSequence: string,
                           sequenceFile: Option<FileRef>)
    ensures var v := UploadStateFixed(file, content, dnaSequence, sequenceFile);
      && (v.validationError != "" ==> !v.isUploading && v.uploadProgress == 0)
      && (v.validationError == "" ==> v.sequenceFile == Some(file) && v.dnaSequence == "")
      && (sequenceFile.None? && IsBlank(dnaSequence) && v.sequenceFile.None? ==> CanChooseFile(v))
  {
    if content.Some? && !CommuniqueValidation.ValidateFastaSequence(content.value).isValid {
      RejectionMessage(content.value);
    }
  }

  /** Both versions agree except on the indicator after rejected content. */
  lemma FixedAgrees(file: FileRef, content: Option<string>, dnaSequence: string,
                    sequenceFile: Option<FileRef>)
    ensures var v := UploadState(file, content, dnaSequence, sequenceFile);
      var w := UploadStateFixed(file, content, dnaSequence, sequenceFile);
      && v.dnaSequence == w.dnaSequence && v.sequenceFile == w.sequenceFile
      && v.validationError == w.validationError && v.uploadProgress == w.uploadProgress
      && (v.isUploading != w.isUploading <==>
            content.Some? && !CommuniqueValidation.ValidateFastaSequence(content.value).isValid)
  {
  }

  /** An accepted upload stores the file and empties the typed sequence; any
    * other outcome leaves both store fields as they were. */
  lemma UploadStoreEffect(file: FileRef, content: Option<string>, dnaSequence: string,
                          sequenceFile: Option<FileRef>)
    ensures var v := UploadState(file, content, dnaSequence, sequenceFile);
      if content.Some? && CommuniqueValidation.ValidateFastaSequence(content.value).isValid
      then v.sequenceFile == Some(file) && v.dnaSequence == "" && v.validationError == ""
      else v.sequenceFile == sequenceFile && v.dnaSequence == dnaSequence && v.validationError != ""
  {
    if content.Some? && !CommuniqueValidation.ValidateFastaSequence(content.value).isValid {
      RejectionMessage(content.value);
    }
  }

  /** The store's sequence fields with the component's own state. */
  class SequenceInput {
    var dnaSequence: string
    var sequenceFile: Option<FileRef>
    var validationError: string
    var isUploading: bool
    var uploadProgress: nat

    /** A typed sequence and an uploaded file never coexist. */
    predicate Exclusive()
      reads this
    {
      sequenceFile.Some? ==> dnaSequence == ""
    }

    function View(): UploadView
      reads this
    {
      UploadView(dnaSequence, sequenceFile, validationError, isUploading, uploadProgress)
    }

    constructor ()
      ensures dnaSequence == "" && sequenceFile == None && validationError == ""
      ensures !isUploading && uploadProgress == 0
      ensures Exclusive()
    {
      dnaSequence := "";
      sequenceFile := None;
      validationError := "";
      isUploading := false;
      uploadProgress := 0;
    }

    /** `handleTextChange`: the text is stored verbatim and the file dropped. */
    method HandleTextChange(value: string)
      modifies this
      ensures dnaSequence == value && sequenceFile == None
      ensures validationError == TextChangeError(value)
      ensures isUploading == old(isUploading) && uploadProgress == old(uploadProgress)
      ensures Exclusive()
    {
      dnaSequence := value;
      sequenceFile := None;
      validationError := TextError(value);
    }

    /** `handleFileUpload` as written: `file` is the chosen file, if any, and
      * `content` what reading it gave (`None` when the read threw). */
    method HandleFileUpload(file: Option<FileRef>, content: Option<string>)
      requires Exclusive()
      modifies this
      ensures file.None? ==> unchanged(this)
      ensures file.Some? && !IsFastaName(file.value.name) ==>
        View() == old(View()).(validationError := NotFasta)
      ensures file.Some? && IsFastaName(file.value.name) && file.value.size > MaxFileSize ==>
        View() == old(View()).(validationError := TooLarge)
      ensures file.Some? && IsFastaName(file.value.name) && file.value.size <= MaxFileSize ==>
        View() == UploadState(file.value, content, old(dnaSequence), old(sequenceFile))
      ensures Exclusive()
    {
      if file.None? {
        return;
      }
      var f := file.value;
      if !EndsWith(ToLower(f.name), ".fasta") && !EndsWith(ToLower(f.name), ".fa") {
        validationError := NotFasta;
        return;
      }
      if f.size > MaxFileSize {
        validationError := TooLarge;
        return;
      }
      isUploading := true;
      uploadProgress := 0;
      validationError := "";
      if content.None? {
        validationError := ReadFailed;
        isUploading := false;
        uploadProgress := 0;
        return;
      }
      var validation := CommuniqueValidation.ValidateFastaSequence(content.value);
      if !validation.isValid {
        validationError := validation.error.GetOr(InvalidFormat);
        return;
      }
      uploadProgress := 100;
      sequenceFile := Some(f);
      dnaSequence := "";
    }

    /** `handleFileUpload` with `isUploading` and the progress reset when the
      * content is rejected. */
    method HandleFileUploadFixed(file: Option<FileRef>, content: Option<string>)
      requires Exclusive()
      modifies this
      ensures file.None? ==> unchanged(this)
      ensures file.Some? && !IsFastaName(file.value.name) ==>
        View() == old(View()).(validationError := NotFasta)
      ensures file.Some? && IsFastaName(file.value.name) && file.value.size > MaxFileSize ==>
        View() == old(View()).(validationError := TooLarge)
      ensures file.Some? && IsFastaName(file.value.name) && file.value.size <= MaxFileSize ==>
        View() == UploadStateFixed(file.value, content, old(dnaSequence), old(sequenceFile))
      ensures Exclusive()
    {
      if file.None? {
        return;
      }
      var f := file.value;
      if !EndsWith(ToLower(f.name), ".fasta") && !EndsWith(ToLower(f.name), ".fa") {
        validationError := NotFasta;
        return;
      }
      if f.size > MaxFileSize {
        validationError := TooLarge;
        return;
      }
      isUploading := true;
      uploadProgress := 0;
      validationError := "";
      if content.None? {
        validationError := ReadFailed;
        isUploading := false;
        uploadProgress := 0;
        return;
      }
      var validation := CommuniqueValidation.ValidateFastaSequence(content.value);
      if !validation.isValid {
        validationError := validation.error.GetOr(InvalidFormat);
        isUploading := false;
        uploadProgress := 0;
        return;
      }
      uploadProgress := 100;
      sequenceFile := Some(f);
      dnaSequence := "";
    }

    /** The `setTimeout` callback that ends a successful upload. */
    method FinishUpload()
      modifies this
      ensures View() == old(View()).(isUploading := false, uploadProgress := 0)
    {
      isUploading := false;
      uploadProgress := 0;
    }

    /** `removeFile`: the typed sequence is left as it was. */
    method RemoveFile()
      modifies this
      ensures View() == old(View()).(sequenceFile := None, validationError := "")
      ensures Exclusive()
    {
      sequenceFile := None;
      validationError := "";
    }
  }
}
