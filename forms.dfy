/**
  Validation done by the upload and blog-creation forms (core/forms.py).
*/
module Forms {
  import opened Wrappers
  import opened Text

  /** The MIME types an uploaded document may declare. */
  const AllowedContentTypes: seq<string> := [
    "application/pdf",
    "application/msword",
    "application/vnd.openxmlformats-officedocument.wordprocessingml.document"
  ]

  /** 10 MiB, in bytes. */
  const MaxUploadSize: nat := 10 * 1024 * 1024

  const UnsupportedTypeMessage := "Unsupported file type. Allowed types: PDF, DOC, DOCX."
  const TooLargeMessage := "File size too large. Maximum size is 10MB."
  const RequiredMessage := "This field is required."
  const NullCharactersMessage := "Null characters are not allowed."

  datatype ValidationError = ValidationError(message: string)

  /** An uploaded file as the form sees it: its name, declared MIME type and size. */
  datatype UploadedFile = UploadedFile(name: string, contentType: string, size: nat)

  /** A file object is truthy when it has a name (Django's `File.__bool__`); no file at all is `None`. */
  predicate FileTruthy(f: Option<UploadedFile>)
  {
    f.Some? && f.value.name != ""
  }

  /**
    `DocumentUploadForm.clean_file`: a file that is present must declare an
    allowed type, and only then is its size checked; the file itself is
    returned unchanged.
  */
  function CleanFile(file: Option<UploadedFile>): (r: Result<Option<UploadedFile>, ValidationError>)
    ensures r.Ok? ==> r.value == file
    ensures !FileTruthy(file) ==> r == Ok(file)
    ensures FileTruthy(file) ==>
      (r == Err(ValidationError(UnsupportedTypeMessage)) <==> file.value.contentType !in AllowedContentTypes)
    ensures FileTruthy(file) ==>
      (r == Err(ValidationError(TooLargeMessage)) <==>
        file.value.contentType in AllowedContentTypes && file.value.size > MaxUploadSize)
    ensures r.Ok? <==>
      (!FileTruthy(file) || (file.value.contentType in AllowedContentTypes && file.value.size <= MaxUploadSize))
  {
    if FileTruthy(file) then
      if file.value.contentType !in AllowedContentTypes then
        Err(ValidationError(UnsupportedTypeMessage))
      else if file.value.size > 10 * 1024 * 1024 then
        Err(ValidationError(TooLargeMessage))
      else Ok(file)
    else Ok(file)
  }

  /** The size limit is inclusive: exactly 10 MiB passes, one byte more does not. */
  lemma SizeLimitBoundary(name: string, contentType: string)
    requires name != "" && contentType in AllowedContentTypes
    ensures CleanFile(Some(UploadedFile(name, contentType, 10485760))).Ok?
    ensures CleanFile(Some(UploadedFile(name, contentType, 10485761))) == Err(ValidationError(TooLargeMessage))
  {
  }

  /** A file wrong in both type and size is reported for its type. */
  lemma TypeCheckedFirst(f: UploadedFile)
    requires f.name != "" && f.contentType !in AllowedContentTypes && f.size > MaxUploadSize
    ensures CleanFile(Some(f)) == Err(ValidationError(UnsupportedTypeMessage))
  {
  }

  // ---------------------------------------------------------------- keywords

  function StripAll(ps: seq<string>): (r: seq<string>)
    ensures |r| == |ps|
    ensures forall i :: 0 <= i < |ps| ==> r[i] == Strip(ps[i])
  {
    if ps == [] then [] else [Strip(ps[0])] + StripAll(ps[1..])
  }

  function DropEmpty(ps: seq<string>): (r: seq<string>)
    ensures forall i :: 0 <= i < |r| ==> r[i] != ""
  {
    if ps == [] then [] else (if ps[0] != "" then [ps[0]] else []) + DropEmpty(ps[1..])
  }

  /**
    `BlogCreationForm.clean_user_keywords`: split on commas, strip each piece,
    then drop the empty ones; an empty field gives `[]`.
  */
  function CleanUserKeywords(keywords: string): seq<string>
  {
    if keywords != "" then DropEmpty(StripAll(Split(keywords, ','))) else []
  }

  lemma {:induction false} DropEmptyStripAll(ps: seq<string>)
    ensures DropEmpty(StripAll(ps)) == KeepStripped(ps)
  {
    if ps != [] {
      DropEmptyStripAll(ps[1..]);
      assert StripAll(ps)[1..] == StripAll(ps[1..]);
    }
  }

  /**
    The form's two passes give the same list as the one-pass comprehension the
    views and the generator use, including on the empty field.
  */
  lemma CleanUserKeywordsIsKeywordList(keywords: string)
    ensures CleanUserKeywords(keywords) == KeywordList(keywords)
  {
    DropEmptyStripAll(Split(keywords, ','));
    if keywords == "" {
      assert Split("", ',') == [""];
      assert Strip("") == "";
    }
  }

  /**
    What the form returns is non-empty, stripped, comma-free keywords, and a
    list written as `', '.join(...)` comes back unchanged, order and
    duplicates included.
  */
  lemma CleanUserKeywordsShape(keywords: string, ks: seq<string>)
    requires forall i :: 0 <= i < |ks| ==> IsKeyword(ks[i])
    ensures forall i :: 0 <= i < |CleanUserKeywords(keywords)| ==> IsKeyword(CleanUserKeywords(keywords)[i])
    ensures CleanUserKeywords(keywords) == [] <==> KeywordList(keywords) == []
    ensures CleanUserKeywords(Join(ks, ", ")) == ks
  {
    CleanUserKeywordsIsKeywordList(keywords);
    KeywordListShape(keywords);
    CleanUserKeywordsIsKeywordList(Join(ks, ", "));
    KeywordListOfJoined(ks);
  }

  /**
    The whole `user_keywords` field: Django's `CharField` strips the value,
    rejects an empty one (it is required), then rejects one holding a null
    character, before `clean_user_keywords` runs.
  */
  function CleanUserKeywordsField(raw: string): (r: Result<seq<string>, ValidationError>)
    ensures r.Err? <==> Strip(raw) == "" || '\0' in Strip(raw)
    ensures Strip(raw) == "" ==> r == Err(ValidationError(RequiredMessage))
    ensures Strip(raw) != "" && '\0' in Strip(raw) ==> r == Err(ValidationError(NullCharactersMessage))
    ensures r.Ok? ==> r.value == KeywordList(Strip(raw))
    ensures r.Ok? ==> forall i :: 0 <= i < |r.value| ==> IsKeyword(r.value[i])
  {
    var v := Strip(raw);
    if v == "" then Err(ValidationError(RequiredMessage))
    else if '\0' in v then Err(ValidationError(NullCharactersMessage))
    else
      CleanUserKeywordsIsKeywordList(v);
      KeywordListShape(v);
      Ok(CleanUserKeywords(v))
  }

  // ---------------------------------------------------------------- tone

  /** The values of the tone choice field, in the order the form lists them. */
  const ToneChoices: seq<string> := ["professional", "casual", "friendly", "academic"]

  /**
    Django's `ChoiceField` for `tone`: required, and the value must be one of
    the four choices.
  */
  function CleanTone(value: string): (r: Result<string, ValidationError>)
    ensures r.Ok? <==> value in ToneChoices
    ensures r.Ok? ==> r.value == value
    ensures value == "" ==> r == Err(ValidationError(RequiredMessage))
  {
    if value == "" then Err(ValidationError(RequiredMessage))
    else if value !in ToneChoices then
      Err(ValidationError("Select a valid choice. " + value + " is not one of the available choices."))
    else Ok(value)
  }
}
