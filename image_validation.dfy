/** `ImageValidationService.validateImage`: the server-side size and
    format check of an uploaded image. */
module ImageValidation {
  import opened Common

  const MaxSizeMB: nat := 10
  const AllowedFormats: seq<string> := ["image/jpeg", "image/png"]

  /** `file.size / (1024 * 1024)`. The quotient of an integer below 2^53 by
      a power of two is exact in floating point, so real division gives
      the value the source computes. */
  function SizeMB(size: nat): real
  {
    (size as real) / 1048576.0
  }

  function SizeError(): string
  {
    "Image size must be less than " + NatToString(MaxSizeMB) + "MB"
  }

  function FormatError(): string
  {
    "Image format must be one of: " + Join(AllowedFormats, ", ")
  }

  /** `validateImage(file)`: size first, then format. */
  function ValidateImage(file: FileInfo): Validation
  {
    if SizeMB(file.size) > MaxSizeMB as real then Validation(false, Some(SizeError()))
    else if file.mimeType !in AllowedFormats then Validation(false, Some(FormatError()))
    else Validation(true, None)
  }

  /** The size test in megabytes is the integer test size > 10485760. */
  lemma SizeTestIsIntegral(size: nat)
    ensures SizeMB(size) > MaxSizeMB as real <==> size > MaxImageBytes
  {
  }

  /** The two messages, written out. */
  lemma ErrorTexts()
    ensures SizeError() == "Image size must be less than 10MB"
    ensures FormatError() == "Image format must be one of: image/jpeg, image/png"
  {
    assert NatToString(10) == "10";
  }

  /** A file is valid exactly when it is at most 10 MiB and JPEG or PNG
      ("image/jpg" is refused); an invalid file always has a message, and
      an oversized file reports the size error whatever its type. */
  lemma ValidateImageSpec(file: FileInfo)
    ensures var v := ValidateImage(file);
      && (v.isValid <==> file.size <= MaxImageBytes && (file.mimeType == "image/jpeg" || file.mimeType == "image/png"))
      && (v.isValid <==> v.error.None?)
      && (file.size > MaxImageBytes ==> v.error == Some(SizeError()))
      && (file.size <= MaxImageBytes && !v.isValid ==> v.error == Some(FormatError()))
      && (file.mimeType == "image/jpg" ==> !v.isValid)
  {
    SizeTestIsIntegral(file.size);
  }
}
