/** `UploadSection`: the client-side check of a chosen image, and how a
    file chosen in the input differs from a dropped one when it is
    refused. The selection belongs to the parent view and is reached
    through `onFileSelect`; it is a field here. */
module UploadSection {
  import opened Common

  const AllowedFileTypes: seq<string> := ["image/jpeg", "image/png", "image/jpg"]
  const InvalidTypeMessage: string := "Invalid file type. Please select a JPEG or PNG image."
  const TooLargeMessage: string := "File is too large. Maximum size is 10MB."

  /** `validateFile(file)`: type first, then size. */
  function ValidateFile(file: Option<FileInfo>): Validation
  {
    if file.None? then Validation(false, None)
    else if file.value.mimeType !in AllowedFileTypes then Validation(false, Some(InvalidTypeMessage))
    else if file.value.size > MaxImageBytes then Validation(false, Some(TooLargeMessage))
    else Validation(true, None)
  }

  /** No file is invalid without a message; a file is valid exactly when
      its type is allowed and it is at most 10 MiB; a bad type is reported
      before a bad size. */
  lemma ValidateFileSpec(file: Option<FileInfo>)
    ensures var v := ValidateFile(file);
      && (file.None? ==> v == Validation(false, None))
      && (file.Some? ==> (v.isValid <==> file.value.mimeType in AllowedFileTypes && file.value.size <= MaxImageBytes))
      && (file.Some? ==> (v.isValid <==> v.error.None?))
      && (file.Some? && file.value.mimeType !in AllowedFileTypes ==> v.error == Some(InvalidTypeMessage))
      && (file.Some? && file.value.mimeType in AllowedFileTypes && !v.isValid ==> v.error == Some(TooLargeMessage))
  {
  }

  /** Exactly 10 MiB is accepted and one byte more is not. */
  lemma SizeBoundary(name: string)
    ensures ValidateFile(Some(FileInfo(name, "image/png", MaxImageBytes))).isValid
    ensures ValidateFile(Some(FileInfo(name, "image/png", MaxImageBytes + 1))).error == Some(TooLargeMessage)
  {
  }

  datatype Toast = ErrorToast(message: string) | SuccessToast(message: string)

  function SelectedMessage(f: FileInfo): string
  {
    "File \"" + f.name + "\" selected successfully"
  }

  class Upload {
    /** The parent's `selectedFile`. */
    var selectedFile: Option<FileInfo>
    /** The file the `<input>` element holds; resetting its value empties it. */
    var inputFile: Option<FileInfo>
    var toasts: seq<Toast>

    constructor (selected: Option<FileInfo>)
      ensures selectedFile == selected && inputFile == None && toasts == []
    {
      selectedFile, inputFile, toasts := selected, None, [];
    }

    /** The Generate button is disabled without a selection or while busy. */
    predicate GenerateDisabled(disabled: bool)
      reads this
    {
      selectedFile.None? || disabled
    }

    /** `handleFileChange`: an invalid file clears the selection and the
        input; a valid one becomes the selection. */
    method HandleFileChange(file: Option<FileInfo>)
      modifies this
      ensures selectedFile.Some? <==> ValidateFile(file).isValid
      ensures var v := ValidateFile(file);
        && (v.isValid ==>
              selectedFile == file && inputFile == file
              && toasts == old(toasts) + [SuccessToast(SelectedMessage(file.value))])
        && (!v.isValid ==>
              selectedFile == None && inputFile == None
              && toasts == old(toasts) + (if v.error.Some? then [ErrorToast(v.error.value)] else []))
    {
      inputFile := file;
      var validation := ValidateFile(file);
      if !validation.isValid {
        if validation.error.Some? {
          toasts := toasts + [ErrorToast(validation.error.value)];
        }
        selectedFile := None;
        inputFile := None;
        return;
      }
      selectedFile := file;
      match file {
        case Some(f) => toasts := toasts + [SuccessToast(SelectedMessage(f))];
        case None =>
      }
    }

    /** `handleDrop`: an invalid file leaves the selection as it was. */
    method HandleDrop(file: Option<FileInfo>)
      modifies this
      ensures inputFile == old(inputFile)
      ensures var v := ValidateFile(file);
        && (v.isValid ==> selectedFile == file && toasts == old(toasts) + [SuccessToast(SelectedMessage(file.value))])
        && (!v.isValid ==>
              selectedFile == old(selectedFile)
              && toasts == old(toasts) + (if v.error.Some? then [ErrorToast(v.error.value)] else []))
    {
      var validation := ValidateFile(file);
      if !validation.isValid {
        if validation.error.Some? {
          toasts := toasts + [ErrorToast(validation.error.value)];
        }
        return;
      }
      selectedFile := file;
      match file {
        case Some(f) => toasts := toasts + [SuccessToast(SelectedMessage(f))];
        case None =>
      }
    }
  }
}
