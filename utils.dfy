/**
  Text extraction, blog generation and grammar suggestions (core/utils.py).
  The PDF and DOCX libraries, the language-model service and the grammar
  checker are outside the model: what they hand back is an input.
*/
module Utils {
  import opened Wrappers
  import opened Json
  import opened Text
  import opened Utf8

  // ---------------------------------------------------------------- file extensions

  predicate AllDots(s: string)
  {
    forall i :: 0 <= i < |s| ==> s[i] == '.'
  }

  /**
    `os.path.splitext(p)[1]` on POSIX: from the last dot of the last path
    component, provided something other than dots comes before it in that
    component; otherwise empty.
  */
  function SplitExt(p: string): (ext: string)
  {
    var si := LastIndexOf(p, '/');
    var di := LastIndexOf(p, '.');
    if di > si && !AllDots(p[si + 1..di]) then p[di..] else ""
  }

  /** An extension is empty or a suffix of the path that starts with its only dot and has no slash. */
  lemma SplitExtShape(p: string)
    ensures var ext := SplitExt(p);
      ext == "" || (
        && StartsWith(ext, ".")
        && p[|p| - |ext|..] == ext
        && '.' !in ext[1..]
        && '/' !in ext)
  {
    var ext := SplitExt(p);
    if ext != "" {
      LastIndexOfIsLast(p, '.');
      LastIndexOfIsLast(p, '/');
      var di := LastIndexOf(p, '.');
      assert ext == p[di..];
      assert forall k :: 0 <= k < |ext[1..]| ==> ext[1..][k] == p[di + 1 + k];
      assert forall k :: 0 <= k < |ext| ==> ext[k] == p[di + k];
    }
  }

  /** Which reader `extract_text_from_file` hands the file to. */
  datatype Extractor = PdfReader | DocxReader | Utf8Text

  function ExtractorFor(name: string): (e: Extractor)
    ensures e == PdfReader <==> Lower(SplitExt(name)) == ".pdf"
    ensures e == DocxReader <==> Lower(SplitExt(name)) == ".docx"
  {
    var ext := Lower(SplitExt(name));
    if ext == ".pdf" then PdfReader
    else if ext == ".docx" then DocxReader
    else Utf8Text
  }

  /** A plain file name: no directory, no dot. */
  predicate PlainStem(stem: string)
  {
    stem != [] && '/' !in stem && '.' !in stem
  }

  lemma PlainStemExt(stem: string, ext: string)
    requires PlainStem(stem)
    requires |ext| >= 1 && ext[0] == '.' && '.' !in ext[1..] && '/' !in ext
    ensures SplitExt(stem + ext) == ext
  {
    LastIndexOfAbsent(stem, '/');
    assert stem[0..] == stem;
    assert !AllDots(stem) by { assert stem[0] != '.'; }
    ExtLemma(stem, ext);
  }

  /** `.doc` files, and files without an extension, are read as UTF-8 text. */
  lemma DocIsReadAsText(stem: string)
    requires PlainStem(stem)
    ensures ExtractorFor(stem + ".doc") == Utf8Text
    ensures ExtractorFor(stem) == Utf8Text
  {
    PlainStemExt(stem, ".doc");
    assert Lower(".doc") == ".doc";
    LastIndexOfAbsent(stem, '.');
  }

  /** The extension is compared after lower-casing. */
  lemma ExtensionCaseIgnored(stem: string)
    requires PlainStem(stem)
    ensures ExtractorFor(stem + ".PDF") == PdfReader
    ensures ExtractorFor(stem + ".Docx") == DocxReader
  {
    PlainStemExt(stem, ".PDF");
    PlainStemExt(stem, ".Docx");
    assert Lower(".PDF") == ".pdf";
    assert Lower(".Docx") == ".docx";
  }

  /**
    Appending an extension to a name whose last component has something other
    than dots makes that extension the name's extension.
  */
  lemma ExtLemma(stem: string, ext: string)
    requires !AllDots(stem[LastIndexOf(stem, '/') + 1..])
    requires |ext| >= 1 && ext[0] == '.' && '.' !in ext[1..] && '/' !in ext
    ensures SplitExt(stem + ext) == ext
  {
    var p := stem + ext;
    var si := LastIndexOf(stem, '/');
    ExtIndices(stem, ext);
    assert p[si + 1..|stem|] == stem[si + 1..];
    assert p[|stem|..] == ext;
  }

  /** After appending such an extension, the last dot is its dot and the last slash is the stem's. */
  lemma ExtIndices(stem: string, ext: string)
    requires |ext| >= 1 && ext[0] == '.' && '.' !in ext[1..] && '/' !in ext
    ensures LastIndexOf(stem + ext, '/') == LastIndexOf(stem, '/')
    ensures LastIndexOf(stem + ext, '.') == |stem|
  {
    LastIndexOfAbsent(ext[1..], '.');
    LastIndexOfAbsent(ext, '/');
    assert ext == [ext[0]] + ext[1..];
    LastIndexOfAppend([ext[0]], ext[1..], '.');
    LastIndexOfAppend(stem, ext, '.');
    LastIndexOfAppend(stem, ext, '/');
  }

  // ---------------------------------------------------------------- extraction

  /** What a document library reads from the bytes: page or paragraph texts, or an exception. */
  datatype LibOutput = LibFailed | Texts(texts: seq<string>)

  /** A stored file: its name and bytes, and what PyPDF2 and python-docx make of those bytes. */
  datatype StoredFile = StoredFile(name: string, data: seq<byte>, pdf: LibOutput, docx: LibOutput)

  datatype ExtractError = PdfReadError | DocxReadError | UnicodeDecodeError

  /** The text `extract_text_from_pdf` builds: each page's text followed by a newline. */
  function PdfPagesText(pages: seq<string>): string
  {
    if pages == [] then "" else PdfPagesText(pages[..|pages| - 1]) + pages[|pages| - 1] + "\n"
  }

  /** `extract_text_from_pdf` given the page texts: the `text +=` loop. */
  method ExtractTextFromPdf(pages: seq<string>) returns (text: string)
    ensures text == PdfPagesText(pages)
    ensures text == Join(pages + [""], "\n")
  {
    text := "";
    var i := 0;
    while i < |pages|
      invariant 0 <= i <= |pages|
      invariant text == PdfPagesText(pages[..i])
    {
      assert pages[..i + 1][..i] == pages[..i];
      text := text + pages[i] + "\n";
      i := i + 1;
    }
    assert pages[..|pages|] == pages;
    PdfPagesTextIsJoin(pages);
  }

  lemma {:induction false} JoinSnoc(xs: seq<string>, x: string, sep: string)
    requires xs != []
    ensures Join(xs + [x], sep) == Join(xs, sep) + sep + x
  {
    if |xs| == 1 {
      assert xs + [x] == [xs[0], x];
    } else {
      assert (xs + [x])[1..] == xs[1..] + [x];
      JoinSnoc(xs[1..], x, sep);
    }
  }

  /** The page texts are the newline-separated lines of the result, with an empty last line. */
  lemma {:induction false} PdfPagesTextIsJoin(pages: seq<string>)
    ensures PdfPagesText(pages) == Join(pages + [""], "\n")
  {
    if pages != [] {
      var init := pages[..|pages| - 1];
      var last := pages[|pages| - 1];
      PdfPagesTextIsJoin(init);
      assert pages + [""] == (init + [last]) + [""];
      assert init + [last] == pages;
      JoinSnoc(pages, "", "\n");
      if init == [] {
        assert pages == [last];
      } else {
        JoinSnoc(init, last, "\n");
        JoinSnoc(init, "", "\n");
      }
    }
  }

  lemma PdfPagesRecoverable(pages: seq<string>)
    requires forall i :: 0 <= i < |pages| ==> '\n' !in pages[i]
    ensures Split(PdfPagesText(pages), '\n') == pages + [""]
  {
    PdfPagesTextIsJoin(pages);
    JoinThenSplit(pages + [""], '\n');
  }

  /** `extract_text_from_file`: dispatch on the lower-cased extension of the file name. */
  function ExtractText(f: StoredFile): Result<string, ExtractError>
  {
    match ExtractorFor(f.name)
    case PdfReader =>
      (match f.pdf
       case LibFailed => Err(PdfReadError)
       case Texts(pages) => Ok(PdfPagesText(pages)))
    case DocxReader =>
      (match f.docx
       case LibFailed => Err(DocxReadError)
       case Texts(paragraphs) => Ok(Join(paragraphs, "\n")))
    case Utf8Text =>
      match Decode(f.data)
      case None => Err(UnicodeDecodeError)
      case Some(s) => Ok(s)
  }

  /**
    A PDF yields its pages joined by newlines with a final newline, a DOCX its
    paragraphs joined by newlines, each exactly when its library reads the
    file; every other name takes the UTF-8 path.
  */
  lemma ExtractTextReaders(f: StoredFile)
    ensures ExtractorFor(f.name) == PdfReader ==>
      ExtractText(f) == if f.pdf.LibFailed? then Err(PdfReadError) else Ok(Join(f.pdf.texts + [""], "\n"))
    ensures ExtractorFor(f.name) == DocxReader ==>
      ExtractText(f) == if f.docx.LibFailed? then Err(DocxReadError) else Ok(Join(f.docx.texts, "\n"))
    ensures ExtractorFor(f.name) == Utf8Text ==> (ExtractText(f).Ok? <==> Decode(f.data).Some?)
  {
    if f.pdf.Texts? {
      PdfPagesTextIsJoin(f.pdf.texts);
    }
  }

  /** A file read as text yields a text exactly when its bytes are valid UTF-8, and the text encodes back to them. */
  lemma ExtractTextAsUtf8(f: StoredFile)
    requires ExtractorFor(f.name) == Utf8Text
    ensures ExtractText(f).Ok? <==> Decode(f.data).Some?
    ensures ExtractText(f).Ok? ==> Encode(ExtractText(f).value) == f.data
  {
    if Decode(f.data).Some? {
      EncodeDecode(f.data);
    }
  }

  /** A text file holding the UTF-8 encoding of some text yields exactly that text. */
  lemma ExtractTextOfUtf8(name: string, text: string, pdf: LibOutput, docx: LibOutput)
    requires ExtractorFor(name) == Utf8Text
    ensures ExtractText(StoredFile(name, Encode(text), pdf, docx)) == Ok(text)
  {
    DecodeEncode(text);
  }

  // ---------------------------------------------------------------- generation

  /** `target_keywords` made a list: a string is split on commas, anything else is kept. */
  function CoerceKeywords(target: Json): Json
  {
    if target.Str? then Arr(AsStrings(KeywordList(target.s))) else target
  }

  function AsStrings(ks: seq<string>): (r: seq<Json>)
    ensures |r| == |ks|
    ensures forall i :: 0 <= i < |ks| ==> r[i] == Str(ks[i])
  {
    if ks == [] then [] else [Str(ks[0])] + AsStrings(ks[1..])
  }

  /** `', '.join(xs)` succeeds on a list of strings and on a dictionary (whose keys are strings). */
  predicate Joinable(v: Json)
  {
    v.Obj? || (v.Arr? && AllStrings(v.items))
  }

  predicate AllStrings(xs: seq<Json>)
  {
    forall i :: 0 <= i < |xs| ==> xs[i].Str?
  }

  /** What came back from the language-model request. */
  datatype ApiOutcome =
    | CallFailed(message: string)     // the client raised
    | NoContent                       // `message.content` is `None`
    | Content(text: string)

  /** Why `generate_blog_content` raised inside its `try`. */
  datatype Cause =
    | ApiError(message: string)
    | NoReplyText                     // `None[:200]` raises `TypeError`
    | MissingKeys(keys: seq<string>)  // the `ValueError` of the required-key check
    | NotIterable                     // `key in result` on a number, boolean or `None`
    | NotSubscriptable                // `result['keywords']` on a list or string

  datatype GenError =
    | Wrapped(cause: Cause)           // re-raised as "Error generating blog content: ..."
    | KeywordJoinError                // `', '.join(...)` raised before the `try`

  const RequiredKeys: seq<string> := ["blog_title", "keywords", "blog_outline", "blog_draft"]

  /** Python's `in` on a string, a substring test. */
  predicate Contains(s: string, k: string)
  {
    exists i :: 0 <= i <= |s| && k <= s[i..]
  }

  /** `key in result` for a parsed reply that supports `in`. */
  predicate InReply(reply: Json, k: string)
    requires reply.Obj? || reply.Arr? || reply.Str?
  {
    match reply
    case Obj(ms) => HasKey(ms, k)
    case Arr(xs) => Str(k) in xs
    case Str(s) => Contains(s, k)
  }

  /** `[key for key in keys if key not in result]`. */
  function Missing(reply: Json, keys: seq<string>): (r: seq<string>)
    requires reply.Obj? || reply.Arr? || reply.Str?
    ensures forall k :: k in r <==> k in keys && !InReply(reply, k)
    ensures (forall k :: k in keys ==> InReply(reply, k)) ==> r == []
  {
    if keys == [] then []
    else (if InReply(reply, keys[0]) then [] else [keys[0]]) + Missing(reply, keys[1..])
  }

  /** The reply given when the reply text is not JSON. */
  function Fallback(topic: Json, target: Json): Json
  {
    Obj([
      ("blog_title", topic),
      ("keywords", Obj([("user_keywords", target), ("additional_keywords", Arr([]))])),
      ("blog_outline", Str("Error generating outline")),
      ("blog_draft", Str("Error generating draft"))
    ])
  }

  /** The keywords entry after repair (lines 102-112). */
  function RepairedKeywords(kw: Option<Json>, target: Json): Json
  {
    if kw.None? || !kw.value.Obj? then
      Obj([("user_keywords", target), ("additional_keywords", Arr([]))])
    else
      var ms := kw.value.members;
      var ms1 := if HasKey(ms, "user_keywords") then ms else Put(ms, "user_keywords", target);
      var ms2 := if HasKey(ms1, "additional_keywords") then ms1 else Put(ms1, "additional_keywords", Arr([]));
      Obj(ms2)
  }

  /** The outcome for a reply that parsed to `v` (lines 91-114). */
  function FromReply(keywords: Json, v: Json): Result<Json, GenError>
  {
    if !(v.Obj? || v.Arr? || v.Str?) then Err(Wrapped(NotIterable))
    else if Missing(v, RequiredKeys) != [] then Err(Wrapped(MissingKeys(Missing(v, RequiredKeys))))
    else if !v.Obj? then Err(Wrapped(NotSubscriptable))
    else Ok(Obj(Put(v.members, "keywords", RepairedKeywords(Get(v.members, "keywords"), keywords))))
  }

  /** What `generate_blog_content` returns or raises, given the model's reply. */
  function Generate(topic: Json, target: Json, reply: ApiOutcome, parse: string -> Parse): Result<Json, GenError>
  {
    var keywords := CoerceKeywords(target);
    if !Joinable(keywords) then Err(KeywordJoinError)
    else
      match reply
      case CallFailed(m) => Err(Wrapped(ApiError(m)))
      case NoContent => Err(Wrapped(NoReplyText))
      case Content(text) =>
        match parse(text)
        case Malformed => Ok(Fallback(topic, keywords))
        case Parsed(v) => FromReply(keywords, v)
  }

  /**
    `generate_blog_content` after the request: the reply is validated, then its
    `keywords` entry is repaired in place.
  */
  method GenerateBlogContent(topic: Json, tone: Json, target: Json, documentsContent: string,
                             reply: ApiOutcome, parse: string -> Parse)
    returns (r: Result<Json, GenError>)
    ensures r == Generate(topic, target, reply, parse)
  {
    var keywords := target;
    if keywords.Str? {
      keywords := Arr(AsStrings(KeywordList(keywords.s)));
    }
    assert keywords == CoerceKeywords(target);
    if !Joinable(keywords) {
      return Err(KeywordJoinError);
    }
    // The prompt text and the request itself are not modelled.
    match reply {
      case CallFailed(m) => return Err(Wrapped(ApiError(m)));
      case NoContent => return Err(Wrapped(NoReplyText));
      case Content(text) =>
        var parsed := parse(text);
        if parsed.Malformed? {
          return Ok(Fallback(topic, keywords));
        }
        var value := parsed.value;
        GenerateParsed(topic, target, text, parse);
        if !(value.Obj? || value.Arr? || value.Str?) {
          return Err(Wrapped(NotIterable));
        }
        var missing := Missing(value, RequiredKeys);
        if missing != [] {
          return Err(Wrapped(MissingKeys(missing)));
        }
        if !value.Obj? {
          return Err(Wrapped(NotSubscriptable));
        }
        var result := value.members;
        var kw := Get(result, "keywords");
        if kw.None? || !kw.value.Obj? {
          result := Put(result, "keywords", Obj([("user_keywords", keywords), ("additional_keywords", Arr([]))]));
        } else {
          var inner := kw.value.members;
          if !HasKey(inner, "user_keywords") {
            inner := Put(inner, "user_keywords", keywords);
          }
          if !HasKey(inner, "additional_keywords") {
            inner := Put(inner, "additional_keywords", Arr([]));
          }
          result := Put(result, "keywords", Obj(inner));
        }
        assert Obj(result) == FromReply(keywords, value).value;
        return Ok(Obj(result));
    }
  }

  /** An unparseable reply gives exactly the fallback, built from the topic and the keywords. */
  lemma UnparseableReplyFallsBack(topic: Json, target: Json, text: string, parse: string -> Parse)
    requires parse(text) == Malformed && Joinable(CoerceKeywords(target))
    ensures Generate(topic, target, Content(text), parse) == Ok(Fallback(topic, CoerceKeywords(target)))
    ensures Get(Fallback(topic, CoerceKeywords(target)).members, "blog_title") == Some(topic)
  {
  }

  /** A reply object lacking a required key fails, naming exactly the missing keys in order. */
  lemma MissingKeyFails(topic: Json, target: Json, text: string, parse: string -> Parse, ms: seq<(string, Json)>, k: string)
    requires parse(text) == Parsed(Obj(ms)) && Joinable(CoerceKeywords(target))
    requires k in RequiredKeys && !HasKey(ms, k)
    ensures Generate(topic, target, Content(text), parse).Err?
    ensures var e := Generate(topic, target, Content(text), parse).error;
      e.Wrapped? && e.cause.MissingKeys? && k in e.cause.keys
      && forall j :: j in e.cause.keys <==> j in RequiredKeys && !HasKey(ms, j)
  {
    GenerateParsed(topic, target, text, parse);
    var missing := Missing(Obj(ms), RequiredKeys);
    assert k in missing;
    assert FromReply(CoerceKeywords(target), Obj(ms)) == Err(Wrapped(MissingKeys(missing)));
  }

  /** A reply that parsed is judged by `FromReply` alone. */
  lemma GenerateParsed(topic: Json, target: Json, text: string, parse: string -> Parse)
    requires parse(text).Parsed? && Joinable(CoerceKeywords(target))
    ensures Generate(topic, target, Content(text), parse) == FromReply(CoerceKeywords(target), parse(text).value)
  {
  }

  /** A string keyword list becomes its comma-split, stripped, non-empty pieces; a list is kept. */
  lemma CoercedKeywords(target: Json)
    ensures !target.Str? ==> CoerceKeywords(target) == target
    ensures target.Str? ==> var r := CoerceKeywords(target);
      && r.Arr? && |r.items| == |KeywordList(target.s)|
      && (forall i :: 0 <= i < |r.items| ==> r.items[i] == Str(KeywordList(target.s)[i]))
      && Joinable(r)
  {
  }

  /**
    A reply object with all four keys is returned with its `keywords` entry
    repaired: a non-dictionary is replaced by the input keywords and an empty
    list, a dictionary gains whichever of the two lists it lacks, and every
    other key and value is kept, in order.
  */
  lemma {:induction false} RepairedReply(topic: Json, target: Json, text: string, parse: string -> Parse,
                                         ms: seq<(string, Json)>)
    requires parse(text) == Parsed(Obj(ms)) && Joinable(CoerceKeywords(target))
    requires forall k :: k in RequiredKeys ==> HasKey(ms, k)
    ensures var r := Generate(topic, target, Content(text), parse);
      && r.Ok? && r.value.Obj?
      && Keys(r.value.members) == Keys(ms)
      && (forall k :: k != "keywords" ==> Get(r.value.members, k) == Get(ms, k))
      && Get(r.value.members, "keywords") == Some(RepairedKeywords(Get(ms, "keywords"), CoerceKeywords(target)))
  {
    GenerateParsed(topic, target, text, parse);
    assert Missing(Obj(ms), RequiredKeys) == [];
    var kw := RepairedKeywords(Get(ms, "keywords"), CoerceKeywords(target));
    assert FromReply(CoerceKeywords(target), Obj(ms)) == Ok(Obj(Put(ms, "keywords", kw)));
    assert HasKey(ms, "keywords");
    PutKeys(ms, "keywords", kw);
    forall k ensures Get(Put(ms, "keywords", kw), k) == if k == "keywords" then Some(kw) else Get(ms, k) {
      PutGet(ms, "keywords", kw, k);
    }
  }

  /** A `keywords` entry that is not a dictionary is replaced by the input keywords and `[]`. */
  lemma RepairedKeywordsReplace(kw: Option<Json>, target: Json)
    requires kw.None? || !kw.value.Obj?
    ensures RepairedKeywords(kw, target).Obj?
    ensures Keys(RepairedKeywords(kw, target).members) == ["user_keywords", "additional_keywords"]
    ensures Get(RepairedKeywords(kw, target).members, "user_keywords") == Some(target)
    ensures Get(RepairedKeywords(kw, target).members, "additional_keywords") == Some(Arr([]))
  {
  }

  /**
    A dictionary `keywords` entry keeps every entry it has and gains whichever
    of `user_keywords` (the input keywords) and `additional_keywords` (`[]`)
    it lacks.
  */
  lemma {:induction false} RepairedKeywordsMerge(ms: seq<(string, Json)>, target: Json)
    ensures RepairedKeywords(Some(Obj(ms)), target).Obj?
    ensures var rs := RepairedKeywords(Some(Obj(ms)), target).members;
      forall k :: Get(rs, k) ==
        if k == "user_keywords" && !HasKey(ms, k) then Some(target)
        else if k == "additional_keywords" && !HasKey(ms, k) then Some(Arr([]))
        else Get(ms, k)
  {
    var m1 := if HasKey(ms, "user_keywords") then ms else Put(ms, "user_keywords", target);
    forall k ensures Get(m1, k) == if k == "user_keywords" && !HasKey(ms, k) then Some(target) else Get(ms, k) {
      if !HasKey(ms, "user_keywords") { PutGet(ms, "user_keywords", target, k); }
    }
    var m2 := if HasKey(m1, "additional_keywords") then m1 else Put(m1, "additional_keywords", Arr([]));
    forall k ensures Get(m2, k) == if k == "additional_keywords" && !HasKey(m1, k) then Some(Arr([])) else Get(m1, k) {
      if !HasKey(m1, "additional_keywords") { PutGet(m1, "additional_keywords", Arr([]), k); }
    }
  }

  /** Whatever the reply held under `keywords`, the repaired entry is a dictionary with both lists. */
  lemma RepairedKeywordsShape(kw: Option<Json>, target: Json)
    ensures RepairedKeywords(kw, target).Obj?
    ensures HasKey(RepairedKeywords(kw, target).members, "user_keywords")
    ensures HasKey(RepairedKeywords(kw, target).members, "additional_keywords")
  {
    if kw.Some? && kw.value.Obj? {
      var ms := kw.value.members;
      var m1 := if HasKey(ms, "user_keywords") then ms else Put(ms, "user_keywords", target);
      PutKeys(ms, "user_keywords", target);
      assert HasKey(m1, "user_keywords");
      var m2 := if HasKey(m1, "additional_keywords") then m1 else Put(m1, "additional_keywords", Arr([]));
      PutKeys(m1, "additional_keywords", Arr([]));
      assert HasKey(m2, "user_keywords") && HasKey(m2, "additional_keywords");
      assert RepairedKeywords(kw, target) == Obj(m2);
    } else {
      RepairedKeywordsReplace(kw, target);
    }
  }

  /** Every successful result is a dictionary whose `keywords` is a dictionary with both lists. */
  lemma GenerateResultShape(topic: Json, target: Json, reply: ApiOutcome, parse: string -> Parse)
    requires Generate(topic, target, reply, parse).Ok?
    ensures var r := Generate(topic, target, reply, parse).value;
      && r.Obj?
      && (forall k :: k in RequiredKeys ==> HasKey(r.members, k))
      && Get(r.members, "keywords").Some? && Get(r.members, "keywords").value.Obj?
      && HasKey(Get(r.members, "keywords").value.members, "user_keywords")
      && HasKey(Get(r.members, "keywords").value.members, "additional_keywords")
  {
    var text := reply.text;
    if parse(text).Malformed? {
      FallbackShaped(topic, CoerceKeywords(target));
    } else {
      GenerateParsed(topic, target, text, parse);
      ReplyShaped(topic, target, text, parse);
    }
  }

  /** The shape `GenerateResultShape` promises. */
  predicate Shaped(r: Json)
  {
    && r.Obj?
    && (forall k :: k in RequiredKeys ==> HasKey(r.members, k))
    && Get(r.members, "keywords").Some? && Get(r.members, "keywords").value.Obj?
    && HasKey(Get(r.members, "keywords").value.members, "user_keywords")
    && HasKey(Get(r.members, "keywords").value.members, "additional_keywords")
  }

  lemma FallbackShaped(topic: Json, keywords: Json)
    ensures Shaped(Fallback(topic, keywords))
  {
    var r := Fallback(topic, keywords);
    var kws := Obj([("user_keywords", keywords), ("additional_keywords", Arr([]))]);
    assert r.members[1..][0] == ("keywords", kws);
    assert Get(r.members, "keywords") == Some(kws);
    assert Keys(r.members) == RequiredKeys;
    assert Keys(kws.members) == ["user_keywords", "additional_keywords"];
  }

  lemma ReplyShaped(topic: Json, target: Json, text: string, parse: string -> Parse)
    requires parse(text).Parsed? && Joinable(CoerceKeywords(target))
    requires FromReply(CoerceKeywords(target), parse(text).value).Ok?
    ensures Shaped(FromReply(CoerceKeywords(target), parse(text).value).value)
  {
    var ms := parse(text).value.members;
    forall k | k in RequiredKeys ensures HasKey(ms, k) {
      assert k !in Missing(Obj(ms), RequiredKeys);
    }
    RepairedReply(topic, target, text, parse, ms);
    GenerateParsed(topic, target, text, parse);
    var r := FromReply(CoerceKeywords(target), parse(text).value).value;
    forall k | k in RequiredKeys ensures HasKey(r.members, k) {
      if k != "keywords" {
        assert Get(r.members, k) == Get(ms, k);
      }
    }
    RepairedKeywordsShape(Get(ms, "keywords"), CoerceKeywords(target));
  }

  // ---------------------------------------------------------------- grammar

  /** A match reported by the grammar checker. */
  datatype GrammarMatch = GrammarMatch(offset: int, errorLength: int, message: string,
                                       replacements: seq<string>, context: string, contextOffset: int)

  /** A suggestion as `check_grammar` returns it. */
  datatype Suggestion = Suggestion(start: int, end: int, message: string,
                                   replacements: seq<string>, context: string, contextOffset: int)

  /** The suggestion for one match: its span runs from the offset over the error's length. */
  predicate Suggests(s: Suggestion, m: GrammarMatch)
  {
    && s.start == m.offset && s.end - s.start == m.errorLength
    && s.message == m.message && s.replacements == m.replacements
    && s.context == m.context && s.contextOffset == m.contextOffset
  }

  /** `check_grammar` given the checker's matches: one suggestion per match, in order. */
  method CheckGrammar(matches: seq<GrammarMatch>) returns (suggestions: seq<Suggestion>)
    ensures |suggestions| == |matches|
    ensures forall i :: 0 <= i < |matches| ==> Suggests(suggestions[i], matches[i])
  {
    suggestions := [];
    for i := 0 to |matches|
      invariant |suggestions| == i
      invariant forall j :: 0 <= j < i ==> Suggests(suggestions[j], matches[j])
    {
      var m := matches[i];
      var suggestion := Suggestion(m.offset, m.offset + m.errorLength, m.message,
                                   m.replacements, m.context, m.contextOffset);
      suggestions := suggestions + [suggestion];
    }
  }
}
