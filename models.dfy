/**
  The document and blog records (core/models.py): the upload path, the fields
  `Document.save` derives, the status update, the word count, the field
  defaults and `Blog.__str__`. Persistence itself is not modelled.
*/
module Models {
  import opened Wrappers
  import opened Json
  import opened Text
  import Utils

  // ---------------------------------------------------------------- upload path

  /** `os.path.join(a, b)` on POSIX: an absolute `b` replaces `a`. */
  function PathJoin(a: string, b: string): (r: string)
    ensures StartsWith(b, "/") ==> r == b
    ensures !StartsWith(b, "/") && a != [] && a[|a| - 1] != '/' ==> r == a + "/" + b
  {
    if StartsWith(b, "/") then b
    else if a == [] || a[|a| - 1] == '/' then a + b
    else a + "/" + b
  }

  /** The stored file name: the title lower-cased with spaces made underscores, or the upload's own name. */
  function CleanFilename(title: string, filename: string): string
  {
    if title != "" then ReplaceChar(Lower(title), ' ', '_') else filename
  }

  /** Character by character, a title is lower-cased and its spaces become underscores. */
  lemma CleanFilenameChars(title: string, filename: string)
    ensures title == "" ==> CleanFilename(title, filename) == filename
    ensures title != "" ==> |CleanFilename(title, filename)| == |title|
    ensures title != "" ==> forall i :: 0 <= i < |title| ==>
      CleanFilename(title, filename)[i] == if title[i] == ' ' then '_' else LowerChar(title[i])
  {
  }

  /** Lower-casing and the space replacement introduce neither a dot nor a slash. */
  lemma CleanFilenameKeeps(title: string, filename: string, c: char)
    requires title != "" && (c == '.' || c == '/')
    ensures c !in title ==> c !in CleanFilename(title, filename)
    ensures forall i :: 0 <= i < |title| && title[i] != c ==> CleanFilename(title, filename)[i] != c
  {
    CleanFilenameChars(title, filename);
  }

  /** The user's directory, `documents/user_<id>`. */
  function UserDirectory(userId: int): string
  {
    "documents/user_" + DecimalString(userId)
  }

  /** `document_upload_path` as written: the extension of `filename` is computed and not used. */
  function DocumentUploadPath(title: string, userId: int, filename: string): (path: string)
  {
    PathJoin(PathJoin("documents", "user_" + DecimalString(userId)), CleanFilename(title, filename))
  }

  /**
    The path is `documents/user_<id>/<clean name>`, where the clean name is the
    title lower-cased with spaces as underscores, or the upload's name when the
    title is empty; a clean name starting with `/` is the whole path.
  */
  lemma UploadPathLayout(title: string, userId: int, filename: string)
    ensures var clean := CleanFilename(title, filename);
      DocumentUploadPath(title, userId, filename) ==
        if StartsWith(clean, "/") then clean else UserDirectory(userId) + "/" + clean
  {
    var dir := PathJoin("documents", "user_" + DecimalString(userId));
    JoinRelative("documents", "user_" + DecimalString(userId));
    assert dir == UserDirectory(userId);
    UserDirectoryShape(userId);
  }

  /** A name starting with something other than `/` is joined under the directory. */
  lemma JoinRelative(dir: string, name: string)
    requires dir != [] && dir[|dir| - 1] != '/'
    requires name != [] && name[0] != '/'
    ensures PathJoin(dir, name) == dir + "/" + name
  {
    assert name[..1] == [name[0]];
  }

  lemma ConcatAssoc(a: string, b: string, c: string)
    ensures a + (b + c) == (a + b) + c
  {
  }

  /** The user directory is non-empty, ends in a digit and has no dot. */
  lemma UserDirectoryShape(userId: int)
    ensures UserDirectory(userId) != [] && UserDirectory(userId)[|UserDirectory(userId)| - 1] != '/'
    ensures '.' !in UserDirectory(userId)
  {
    var n: int := if userId < 0 then -userId else userId;
    var digits := NatString(n);
    assert AllDigits(digits);
    assert DecimalString(userId) == if userId < 0 then "-" + digits else digits;
    assert UserDirectory(userId)[|UserDirectory(userId)| - 1] == digits[|digits| - 1];
  }

  lemma LowerKeepsNonDot(s: string)
    requires '.' !in s
    ensures '.' !in Lower(s)
  {
    assert forall i :: 0 <= i < |s| ==> Lower(s)[i] == LowerChar(s[i]);
  }

  /**
    As written, a non-empty title without a dot gives a path with no extension,
    so the stored file is always read as UTF-8 text, a PDF or DOCX included.
  */
  lemma UploadPathLosesExtension(title: string, userId: int, filename: string)
    requires title != "" && '.' !in title
    ensures Utils.SplitExt(DocumentUploadPath(title, userId, filename)) == ""
    ensures Utils.ExtractorFor(DocumentUploadPath(title, userId, filename)) == Utils.Utf8Text
  {
    var clean := CleanFilename(title, filename);
    CleanFilenameKeeps(title, filename, '.');
    UserDirectoryShape(userId);
    UploadPathLayout(title, userId, filename);
    var path := DocumentUploadPath(title, userId, filename);
    assert '.' !in path;
    LastIndexOfAbsent(path, '.');
  }

  /** The concrete case: `report.pdf` uploaded with the title "My CV" is stored as `my_cv`. */
  lemma UploadPathExample()
    ensures DocumentUploadPath("My CV", 7, "report.pdf") == "documents/user_7/my_cv"
  {
    CleanMyCv();
    UserSeven();
    UploadPathUnder("My CV", 7, "report.pdf", "documents/user_7", "my_cv");
    assert "documents/user_7" + "/" + "my_cv" == "documents/user_7/my_cv";
  }

  lemma UploadPathUnder(title: string, userId: int, filename: string, dir: string, clean: string)
    requires UserDirectory(userId) == dir && CleanFilename(title, filename) == clean
    requires clean != [] && clean[0] != '/'
    ensures DocumentUploadPath(title, userId, filename) == dir + "/" + clean
  {
    UploadPathLayout(title, userId, filename);
  }

  lemma CleanMyCv()
    ensures CleanFilename("My CV", "report.pdf") == "my_cv"
  {
    assert Lower("My CV") == "my cv";
    assert ReplaceChar("my cv", ' ', '_') == "my_cv";
  }

  lemma UserSeven()
    ensures UserDirectory(7) == "documents/user_7"
  {
    assert DecimalString(7) == "7";
  }

  /** ... and so the PDF, which its own name sends to the PDF reader, is decoded as UTF-8 text. */
  lemma UploadPathExampleReader()
    ensures Utils.ExtractorFor("report.pdf") == Utils.PdfReader
    ensures Utils.ExtractorFor(DocumentUploadPath("My CV", 7, "report.pdf")) == Utils.Utf8Text
  {
    ReportIsPdf();
    UploadPathLosesExtension("My CV", 7, "report.pdf");
  }

  lemma ReportIsPdf()
    ensures Utils.ExtractorFor("report.pdf") == Utils.PdfReader
  {
    Utils.PlainStemExt("report", ".pdf");
    assert "report" + ".pdf" == "report.pdf";
    assert Lower(".pdf") == ".pdf";
  }

  /** The evidently intended path: the clean title followed by the upload's extension. */
  function DocumentUploadPathWithExtension(title: string, userId: int, filename: string): (path: string)
  {
    var clean := if title != "" then CleanFilename(title, filename) + Utils.SplitExt(filename) else filename;
    PathJoin(UserDirectory(userId), clean)
  }

  /** The corrected path is the user directory, a slash, the clean title and the extension. */
  lemma UploadPathWithExtensionParts(title: string, userId: int, filename: string)
    requires title != "" && '/' !in title && !Utils.AllDots(title)
    ensures var stem := UserDirectory(userId) + "/" + CleanFilename(title, filename);
      && DocumentUploadPathWithExtension(title, userId, filename) == stem + Utils.SplitExt(filename)
      && !Utils.AllDots(stem[LastIndexOf(stem, '/') + 1..])
  {
    var ext := Utils.SplitExt(filename);
    var clean := CleanFilename(title, filename);
    CleanTitleNames(title, filename);
    var dir := UserDirectory(userId) + "/";
    LastComponent(dir, clean);
    UserDirectoryShape(userId);
    JoinRelative(UserDirectory(userId), clean + ext);
    ConcatAssoc(dir, clean, ext);
  }

  /** The clean form of a title that names a file names one too. */
  lemma CleanTitleNames(title: string, filename: string)
    requires title != "" && '/' !in title && !Utils.AllDots(title)
    ensures var clean := CleanFilename(title, filename);
      clean != [] && clean[0] != '/' && '/' !in clean && !Utils.AllDots(clean)
  {
    var clean := CleanFilename(title, filename);
    CleanFilenameKeeps(title, filename, '/');
    CleanFilenameKeeps(title, filename, '.');
    var k :| 0 <= k < |title| && title[k] != '.';
    assert clean[k] != '.';
  }

  /** Below a directory ending in `/`, a name without `/` is the last component. */
  lemma LastComponent(dir: string, name: string)
    requires dir != [] && dir[|dir| - 1] == '/' && '/' !in name
    ensures (dir + name)[LastIndexOf(dir + name, '/') + 1..] == name
  {
    LastIndexOfAppend(dir, name, '/');
    LastIndexOfAbsent(name, '/');
  }

  /**
    With the extension kept, a titled PDF or DOCX upload is read by the reader
    its own name selects, provided the title names a file (no `/`, not only dots).
  */
  lemma UploadPathWithExtensionKeepsReader(title: string, userId: int, filename: string)
    requires title != "" && '/' !in title && !Utils.AllDots(title)
    requires Utils.ExtractorFor(filename) != Utils.Utf8Text
    ensures Utils.ExtractorFor(DocumentUploadPathWithExtension(title, userId, filename)) == Utils.ExtractorFor(filename)
  {
    Utils.SplitExtShape(filename);
    UploadPathWithExtensionParts(title, userId, filename);
    Utils.ExtLemma(UserDirectory(userId) + "/" + CleanFilename(title, filename), Utils.SplitExt(filename));
  }

  // ---------------------------------------------------------------- documents

  /**
    A file as `Document.file` holds it; an empty name means no file. An
    upload not yet written to storage is uncommitted and carries the name
    the client sent.
  */
  datatype FieldFile = FieldFile(name: string, size: nat, committed: bool)

  const StatusChoices: seq<string> := ["pending", "processing", "completed", "failed"]

  /** `file.name.split('.')[-1].lower()`. */
  function FileTypeOf(name: string): string
  {
    Lower(LastPiece(name, '.'))
  }

  /** The file type is the lower-cased text after the last dot, or the whole lower-cased name. */
  lemma FileTypeAfterLastDot(name: string)
    ensures FileTypeOf(name) == Lower(name[LastIndexOf(name, '.') + 1..])
    ensures '.' !in name ==> FileTypeOf(name) == Lower(name)
    ensures '.' !in FileTypeOf(name)
  {
    LastPieceAfterLast(name, '.');
    if '.' !in name {
      LastIndexOfAbsent(name, '.');
      assert name[0..] == name;
    }
    var piece := name[LastIndexOf(name, '.') + 1..];
    LastIndexOfIsLast(name, '.');
    assert '.' !in piece;
    LowerKeepsNonDot(piece);
  }

  /** The number of whitespace-separated words, 0 for empty content. */
  function WordCountOf(content: string): (n: nat)
    ensures n == WordStarts(content, true)
  {
    WordsCount(content);
    if content != "" then |Words(content)| else 0
  }

  class Document {
    var userId: int
    var title: string
    var file: FieldFile
    var fileType: string
    var fileSize: int
    var processedContent: string
    var wordCount: int
    var status: string

    /** A new, unsaved document with the field defaults. */
    constructor (userId: int, title: string, file: FieldFile)
      ensures this.userId == userId && this.title == title && this.file == file
      ensures fileType == "" && fileSize == 0 && processedContent == ""
      ensures wordCount == 0 && status == "pending"
    {
      this.userId := userId;
      this.title := title;
      this.file := file;
      fileType := "";
      fileSize := 0;
      processedContent := "";
      wordCount := 0;
      status := "pending";
    }

    /**
      `save`: a present file sets the type and size from the name it has at
      that point; then `super().save()` commits an uncommitted upload under the
      name `document_upload_path` gives. The write to the database is not modelled.
    */
    method Save()
      modifies this
      ensures old(file.name) != "" ==> fileType == FileTypeOf(old(file.name)) && fileSize == old(file.size)
      ensures old(file.name) == "" ==> fileType == old(fileType) && fileSize == old(fileSize)
      ensures old(file.name) != "" && !old(file.committed) ==>
        file == FieldFile(DocumentUploadPath(old(title), old(userId), old(file.name)), old(file.size), true)
      ensures old(file.name) == "" || old(file.committed) ==> file == old(file)
      ensures userId == old(userId) && title == old(title)
      ensures processedContent == old(processedContent) && wordCount == old(wordCount) && status == old(status)
    {
      if file.name != "" {
        fileType := FileTypeOf(file.name);
        fileSize := file.size;
      }
      // `FileField.pre_save`: an uncommitted upload is stored under `upload_to`
      if file.name != "" && !file.committed {
        file := FieldFile(DocumentUploadPath(title, userId, file.name), file.size, true);
      }
    }

    /** `update_status`: exactly the four choices are accepted; anything else raises and changes nothing. */
    method UpdateStatus(newStatus: string) returns (r: Result<(), string>)
      modifies this
      ensures r.Ok? <==> newStatus in StatusChoices
      ensures r.Err? ==> r.error == "Invalid status: " + newStatus
      ensures r.Err? ==> unchanged(this)
      ensures r.Ok? ==> status == newStatus
      ensures r.Ok? && old(file.name) != "" ==> fileType == FileTypeOf(old(file.name)) && fileSize == old(file.size)
      ensures r.Ok? && old(file.name) == "" ==> fileType == old(fileType) && fileSize == old(fileSize)
      ensures r.Ok? && old(file.name) != "" && !old(file.committed) ==>
        file == FieldFile(DocumentUploadPath(old(title), old(userId), old(file.name)), old(file.size), true)
      ensures r.Err? || old(file.name) == "" || old(file.committed) ==> file == old(file)
      ensures userId == old(userId) && title == old(title)
      ensures processedContent == old(processedContent) && wordCount == old(wordCount)
    {
      if newStatus !in StatusChoices {
        return Err("Invalid status: " + newStatus);
      }
      status := newStatus;
      Save();
      return Ok(());
    }

    /** `get_word_count`. */
    function GetWordCount(): (n: nat)
      reads this
      ensures n == WordStarts(processedContent, true)
      ensures processedContent == "" ==> n == 0
    {
      WordCountOf(processedContent)
    }
  }

  /** The status check accepts exactly the four listed values. */
  lemma StatusChoicesExact(s: string)
    ensures s in StatusChoices <==> s == "pending" || s == "processing" || s == "completed" || s == "failed"
  {
  }

  // ---------------------------------------------------------------- blogs

  /**
    The stored columns of a blog that are declared without `null=True`;
    saving `None` into any of them is refused by the database.
  */
  predicate Storable(blogTitle: Json, topic: Json, tone: Json, targetKeywords: Json, additionalKeywords: Json)
  {
    blogTitle != Null && topic != Null && tone != Null && targetKeywords != Null && additionalKeywords != Null
  }

  class Blog {
    var userId: int
    var blogTitle: Json
    var topic: Json
    var tone: Json
    var targetKeywords: Json
    var additionalKeywords: Json
    var blogOutline: Json
    var blogDraft: Json
    var status: string
    var referenceDocuments: set<int>  // the ids of the referenced documents

    /** A new blog with the field defaults. */
    constructor (userId: int, topic: Json)
      ensures this.userId == userId && this.topic == topic
      ensures blogTitle == Str("") && tone == Str("professional")
      ensures targetKeywords == Arr([]) && additionalKeywords == Arr([])
      ensures blogOutline == Null && blogDraft == Null
      ensures status == "draft" && referenceDocuments == {}
      ensures Display() == topic
      ensures Saveable() <==> topic != Null
    {
      this.userId := userId;
      this.topic := topic;
      blogTitle := Str("");
      tone := Str("professional");
      targetKeywords := Arr([]);
      additionalKeywords := Arr([]);
      blogOutline := Null;
      blogDraft := Null;
      status := "draft";
      referenceDocuments := {};
    }

    /** Whether `save()` can write this row. */
    predicate Saveable()
      reads this
    {
      Storable(blogTitle, topic, tone, targetKeywords, additionalKeywords)
    }

    /**
      `__str__`: one of the two names, the title preferred; it is blank only
      when both are.
    */
    function Display(): (r: Json)
      reads this
      ensures r == blogTitle || r == topic
      ensures PyTruthy(r) <==> PyTruthy(blogTitle) || PyTruthy(topic)
      ensures PyTruthy(blogTitle) ==> r == blogTitle
      ensures !PyTruthy(blogTitle) ==> r == topic
      ensures blogTitle.Str? && blogTitle.s == "" ==> r == topic
    {
      if PyTruthy(blogTitle) then blogTitle else topic
    }
  }
}
