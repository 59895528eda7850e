# rightly-ai core, modelled in Dafny

rightly-ai is a Django application. A user uploads documents (PDF, DOC, DOCX).
The application extracts their text and asks a language model for a blog
title, outline and draft built around the user's keywords. The draft is
then edited and previewed. This project models the deterministic parts of
that pipeline and proves properties of them:

- **Input normalisation** (module `Forms`, and `Text.KeywordList`):
  - comma-separated keyword parsing;
  - the upload's MIME-type allow-list and its 10 MiB size limit;
  - the tone choices.
- **Documents** (module `Models`):
  - the upload path;
  - the file type and size that `Document.save` derives from the file, and the commit of a new upload under `document_upload_path`;
  - the word count;
  - status validation;
  - the field defaults of `Document` and `Blog`;
  - `Blog.__str__`.

  `Document` and `Blog` are classes whose fields the methods update.
- **Model-reply validation and repair** (module `Utils`):
  - dispatch on the file extension;
  - PDF page accumulation;
  - keyword coercion;
  - the required-key check;
  - repair of the `keywords` sub-dictionary;
  - the fallback result for a reply that is not JSON;
  - the grammar-match mapping.
- **The server renderer** `format_blog_content` and the views `create_blog`
  (validation order, sentinel filter, extraction count, blog creation) and
  `update_blog` (partial update) (module `Views`).
- **The browser renderer** `formatBlogContent` from `main.js` (module `MainJs`).

Shared modules:

| module | contents |
|---|---|
| `Wrappers` | `Option` and `Result` |
| `Json` | JSON values; an object is an ordered sequence of members, because Python dictionaries keep insertion order and the renderers' sorts are stable |
| `Text` | Python's `split`, `join`, `strip`, `lower`, `int()`; JavaScript's `parseInt` |
| `Sorting` | a stable insertion sort, the model of `list.sort` and `Array.prototype.sort` |
| `Utf8` | strict UTF-8 decoding |
| `Lines` | counting lines |

Each imperative piece of the source is a method whose `ensures` ties its
result to a specification function:

- the PDF text loop;
- the reply repair;
- the grammar loop;
- the renderers' `append`/`push` loops;
- the document loop of `create_blog`.

The properties are proved about those functions.

Inputs that come from libraries or the network are parameters:

| input | model |
|---|---|
| `json.loads` / `JSON.parse` | `parse: string -> Parse`, which gives `Malformed` or `Parsed(v)` |
| text extracted by PyPDF2 and python-docx | values inside `Utils.StoredFile` |
| the language-model reply | `Utils.ApiOutcome` |
| the grammar checker's matches | a sequence of `Utils.GrammarMatch` |
| Python's `repr` of a string | `quote` |
| a JavaScript error's `message` | `messageOf` |
| the ORM ownership query | an `Option` of the found documents, or a nullable `Blog` |

## Model

| member | source | states |
|---|---|---|
| Forms.CleanFile | core/forms.py:55-68 | A falsy file is returned unchanged. A content type outside the allow-list gives the type error. An allowed type larger than 10·1024·1024 bytes gives the size error. The result is Ok (the file itself) exactly when the file is falsy, or when its type is allowed and its size at most the limit. |
| Forms.SizeLimitBoundary | core/forms.py:63-67 | A file of exactly 10485760 bytes passes; one of 10485761 bytes gets "File size too large. Maximum size is 10MB." |
| Forms.TypeCheckedFirst | core/forms.py:57-67 | A file that fails both checks gets the unsupported-type error: the type check runs first. |
| Forms.StripAll | core/forms.py:105 | The same number of pieces, each one stripped. |
| Forms.DropEmpty | core/forms.py:107 | No kept piece is empty. |
| Forms.DropEmptyStripAll | core/forms.py:105-107 | The two comprehensions together equal the shared keyword list: the stripped pieces that are not empty, in order. |
| Forms.CleanUserKeywordsIsKeywordList | core/forms.py:102-109 | `clean_user_keywords` agrees with the keyword comprehension of the view and of `generate_blog_content`, including `[]` for empty input. |
| Forms.CleanUserKeywordsShape | core/forms.py:102-109 | Every returned keyword is stripped, non-empty and free of commas. The result is empty exactly when the keyword list is. Joining any such keywords with ", " and cleaning gives them back in order, duplicates kept. |
| Forms.CleanUserKeywordsField | core/forms.py:74-78 | The field fails exactly when its stripped input is empty ("This field is required.") or holds a null character ("Null characters are not allowed.", the validator every Django `CharField` carries); other input gives the keyword list of the stripped text. |
| Forms.CleanTone | core/forms.py:80-89 | A tone is accepted, unchanged, exactly when it is one of professional, casual, friendly or academic; an empty value gets the required-field error. |
| Text.KeywordListShape | core/views.py:165 | Every keyword of the comma comprehension is stripped, non-empty and comma-free. |
| Text.KeywordListOfJoined | core/utils.py:41-42 | Splitting ", "-joined keywords and keeping the stripped non-empty pieces gives back exactly those keywords. |
| Text.WordsCount | core/models.py:123 | The number of whitespace-separated tokens equals the number of word starts. |
| Text.PyIntOfDecimal | core/views.py:401 | `int()` reads back the decimal text of every integer, negative ones included. |
| Text.JsParseIntDigits | staticfiles/core/js/main.js:29-30 | `parseInt` of a non-empty run of decimal digits is the number those digits spell. |
| Sorting.SortSorted | core/views.py:401 | The sort orders the entries by ascending key. |
| Sorting.SortStable | core/views.py:401 | Entries with equal keys keep their relative order: the sort is stable, as `list.sort` is. |
| Json.PutGet | core/utils.py:103-112 | Assigning a dictionary key changes that key's value and no other. |
| Json.PutKeys | core/utils.py:103-112 | Assigning an existing key keeps the key order; a new key is appended. |
| Utf8.DecodeEncode | core/utils.py:20 | UTF-8 decoding of an encoded text gives the text back. |
| Utf8.EncodeDecode | core/utils.py:20 | Bytes that decode are exactly the encoding of what they decode to. |
| Utils.SplitExtShape | core/utils.py:12 | `os.path.splitext` gives either nothing or a suffix of the name that starts with its only `.` and holds no `/`. |
| Utils.ExtractorFor | core/utils.py:10-20 | The PDF reader is chosen exactly when the lower-cased extension is `.pdf`, the DOCX reader exactly when it is `.docx`; everything else is decoded as UTF-8. |
| Utils.DocIsReadAsText | core/utils.py:18-20 | A `.doc` name, and a name without an extension, are decoded as UTF-8. |
| Utils.ExtensionCaseIgnored | core/utils.py:12-16 | `.PDF` and `.Docx` select the PDF and DOCX readers. |
| Utils.ExtractTextReaders | core/utils.py:10-20 | `extract_text_from_file`: a PDF gives its pages joined by newlines plus a final newline, a DOCX its paragraphs joined by newlines, each exactly when the library reads the file; any other name is decoded as UTF-8 and succeeds exactly on valid UTF-8. |
| Utils.ExtractTextFromPdf | core/utils.py:22-28 | The loop's text is every page followed by a newline, which is the pages joined by newlines plus a final newline. |
| Utils.PdfPagesRecoverable | core/utils.py:25-28 | When no page holds a newline, splitting the text on newlines gives back the pages and one empty trailing piece. |
| Utils.ExtractTextAsUtf8 | core/utils.py:18-20 | On the text path, extraction succeeds exactly when the bytes are valid UTF-8, and the text then encodes back to the stored bytes. |
| Utils.ExtractTextOfUtf8 | core/utils.py:18-20 | A file holding the UTF-8 encoding of a text, on the text path, is read as that text. |
| Utils.AsStrings | core/utils.py:42 | The keywords as JSON strings, one per keyword, in order. |
| Utils.Missing | core/utils.py:96-97 | A key is reported missing exactly when it is required and `key in result` fails; with every key present, nothing is reported. |
| Utils.CoercedKeywords | core/utils.py:40-42 | A string of keywords becomes its stripped, non-empty comma pieces in order, as a list of strings; anything else passes through unchanged. |
| Utils.GenerateBlogContent | core/utils.py:35-134 | What the method returns is the specification `Generate`: coercion, then a join failure before the request, then request failures, fallback, the required-key check and the repair. |
| Utils.UnparseableReplyFallsBack | core/utils.py:117-128 | A reply that is not JSON gives exactly the fallback result: the topic as title, the coerced keywords and `[]` as the keyword lists, and the two fixed error texts. |
| Utils.MissingKeyFails | core/utils.py:96-99 | A reply dictionary lacking a required key raises; the error is the wrapper re-raised at core/utils.py:130-134 around the missing-keys error, and that error names exactly the missing required keys. |
| Utils.RepairedReply | core/utils.py:101-115 | A reply with all four keys is returned with the same keys in the same order. Every entry other than `keywords` is unchanged, and `keywords` holds the repaired value. |
| Utils.RepairedKeywordsReplace | core/utils.py:102-106 | A `keywords` entry that is not a dictionary becomes exactly `{user_keywords: target, additional_keywords: []}`. |
| Utils.RepairedKeywordsMerge | core/utils.py:107-112 | A dictionary `keywords` entry keeps every entry it has, and gains the input keywords as `user_keywords` and `[]` as `additional_keywords` only where these are absent. |
| Utils.GenerateResultShape | core/utils.py:101-128 | Every successful result is a dictionary holding all four required keys, whose `keywords` is a dictionary holding both keyword lists. |
| Utils.CheckGrammar | core/utils.py:144-155 | One suggestion per match, in order; each spans from the match offset over its error length and copies the message, replacements, context and context offset. |
| Models.PathJoin | core/models.py:23 | `os.path.join`: a component starting with `/` replaces the path; otherwise the two are joined with one `/`. |
| Models.CleanFilenameChars | core/models.py:21 | The clean name is the upload name when the title is empty; otherwise it has the title's length and each character is the title's, lower-cased, with spaces as underscores. |
| Models.UploadPathLayout | core/models.py:20-23 | The path is `documents/user_<id>/<clean name>`, or the clean name alone when it starts with `/`. |
| Models.UploadPathLosesExtension | core/models.py:20-23 | A title without a dot gives a stored name with no extension, so extraction decodes it as UTF-8. |
| Models.UploadPathExampleReader | core/models.py:20-23 | "report.pdf" titled "My CV" by user 7 is stored as "documents/user_7/my_cv", which the reader choice of core/utils.py:14-20 reads as UTF-8 although the upload is a PDF. |
| Models.UploadPathWithExtensionKeepsReader | core/models.py:20-23 | With the extension appended, a titled PDF or DOCX upload is read by its own reader (when the title has no `/` and is not only dots). |
| Models.FileTypeAfterLastDot | core/models.py:79 | The file type is the lower-cased text after the last dot, or the whole name lower-cased when there is no dot; it contains no dot. |
| Models.WordCountOf | core/models.py:122-124 | The count is the number of word starts in the content, which `Text.WordsCount` equates with the number of whitespace-separated tokens. |
| Models.Document.constructor | core/models.py:56-63 | A new document has an empty type, size 0, word count 0, status "pending" and empty processed content. |
| Models.Document.Save | core/models.py:69-82 | With a file, the type becomes the type of the file's name as it is before saving and the size the file's size; without one both are kept. An uncommitted upload is then committed under `document_upload_path` of the title, the user and its name (core/models.py:8-23, 50-51); a committed file, or no file, is kept. No other field changes. |
| Models.Document.UpdateStatus | core/models.py:126-139 | Succeeds exactly for the four status choices. Otherwise it fails with "Invalid status: " and the value, and nothing changes. On success the status is set and `save` recomputes the type and size and commits an uncommitted upload under `document_upload_path`; no other field changes. |
| Models.Document.GetWordCount | core/models.py:115-124 | The number of word starts of the processed content, and 0 for empty content. |
| Models.StatusChoicesExact | core/models.py:41-46 | The status choices are exactly pending, processing, completed and failed. |
| Models.Blog.constructor | core/models.py:163-171 | A new blog has an empty title, tone "professional", empty keyword lists, no outline or draft, status "draft" and no referenced documents; it displays as its topic, and it can be saved exactly when the topic is not null. |
| Models.Blog.Display | core/models.py:176-177 | The blog shows its title or its topic, the title whenever it is truthy; what it shows is blank only when both are. |
| Views.WithPrefix | core/views.py:400 | An entry is selected exactly when its key starts with the prefix. |
| Views.SectionOrder | core/views.py:400-401 | Every `H2_` key, `H2_1_2` included, becomes a main section. They remain a permutation of the `H2_` entries, ordered by the integer after the first `_`, and entries with the same number keep their dictionary order. |
| Views.SubsectionOrder | core/views.py:411-412 | The subsections of key K are a permutation of the entries whose key starts with `K_`, ordered by the last `_` integer, with ties kept in dictionary order. |
| Views.MainSectionCount | core/views.py:400-424 | A rendered dictionary holds one main-section opening per `H2_` key. |
| Views.ObjectLayout | core/views.py:387-436 | The container is opened first and closed last. The introduction block comes right after the opening and before every main section. The conclusion block comes after every main section, right before the closing line. |
| Views.FormatCases | core/views.py:378-387 | Falsy content renders as "". A string that is not JSON is wrapped verbatim in one `content-section` div. A dictionary renders as its lines joined by newlines (core/views.py:436-437), beginning with the container. |
| Views.RenderBlogContent | core/views.py:376-437 | The `append` loops compute exactly `FormatBlogContent`, including the exceptions it raises. |
| Views.RenderMainSections | core/views.py:403-424 | The loop over main sections computes exactly their specified lines, stopping at the first exception. |
| Views.RenderSubsections | core/views.py:414-422 | The loop over subsections computes exactly their specified lines, stopping at the first exception. |
| Views.FormDataLast | core/views.py:158 | A name is in the form dictionary exactly when some field carries it, and its value is the string of the last field with that name, as `QueryDict.dict()` keeps the last value. |
| Views.ReadKeywordsShape | core/views.py:165 | The keywords the view reads are stripped, non-empty and comma-free, whichever way the request came. |
| Views.ReadForm | core/views.py:157-166 | A form request always reads: its selected ids become a JSON list of strings, and its topic and keywords come from the form fields. |
| Views.CreateChecksInOrder | core/views.py:168-182 | A missing topic gives "Topic is required". Then an empty selection gives "Please select at least one document". Then an empty query result gives "No valid documents selected", and a failing query the documents error of core/views.py:209-211; each of these wins over everything after it. |
| Views.FormSelectionChecked | core/views.py:159-173 | A form with a topic and no selected documents is refused with "Please select at least one document". |
| Views.KeptPartsExactly | core/views.py:189-194 | Exactly the usable extractions contribute a part: non-empty text outside the four sentinel messages. |
| Views.KeptPartsEmpty | core/views.py:189-202 | No part is kept exactly when no extraction is usable. |
| Views.SentinelSkipped | core/views.py:189-196 | An empty or sentinel extraction adds nothing. |
| Views.NoReadableDocument | core/views.py:202-205 | When no found document gives usable text, the answer is the 400 "Could not extract content…" whatever the model would have replied. |
| Views.CollectDocuments | core/views.py:184-207 | The loop keeps the usable extractions' parts in document order, and its success count is the number of parts kept. |
| Views.CreatedFromShape | core/views.py:229-266 | From a result shaped as generation guarantees, a blog is made exactly when the topic, the tone, the reply's title and its additional keywords are all non-null (the columns of core/models.py:164-168 refuse null), and the failed save (500) is the answer otherwise; the blog gets the request's topic, tone and keywords, the reply's title, outline, draft and additional keywords, and every found document. |
| Views.GeneratedCreates | core/views.py:229-266 | Every successful generation result has the entries the view reads, so only a null topic, tone, title or additional keywords stops the blog, with the failed save. |
| Views.CreatedBlog | core/views.py:202-266 | When some document is usable and generation succeeds, the outcome is built from the generation result: a blog exactly when the tone, the reply's title and its additional keywords are non-null, the failed save (500) otherwise; a blog's user keywords are all keyword-shaped. |
| Views.CreatedStorable | core/views.py:232-248 | A blog built from a result has the request's topic and tone and a non-null value in every column declared without `null=True`. |
| Views.CreatedTopicTruthy | core/views.py:169-170 | A created blog has the request's topic, which passed the truthiness check, and values every non-null column accepts. |
| Views.CreateBlog | core/views.py:145-270 | The view's outcome is `CreateBlogOutcome`; a blog object is made exactly when the outcome is `Created`, with the outcome's fields; it can be saved and it never displays blank (core/models.py:176-177). |
| Views.UpdateOnlySupplied | core/views.py:449-451 | Each of title, outline and draft takes the supplied value when the key is present and keeps its old value otherwise. |
| Views.UpdateWithOwnValues | core/views.py:449-451 | A body supplying all three fields sets them to what it supplies, whatever the blog held; supplying the blog's own values, or nothing, leaves it as it was. |
| Views.UpdateBlog | core/views.py:441-473 | A missing blog gives 404, invalid JSON 400, a non-dictionary body 500 and a body binding `blog_title` to null 500 (the column refuses null), none of which changes the blog. A found, saveable blog with a dictionary body that does not null the title is always updated: the three fields are set as `UpdatedFields` says, every other field is kept, the blog stays saveable, and a blog with a truthy topic keeps displaying a truthy value. |
| MainJs.AllTexts | staticfiles/core/js/main.js:4-85 | A sequence of texts succeeds exactly when none of them threw, and then holds each text in order. |
| MainJs.MainFilter | staticfiles/core/js/main.js:26-27 | An entry is kept exactly when its key matches `^H2_\d+$`. |
| MainJs.MainKeyNumber | staticfiles/core/js/main.js:29-30 | A main key splits into "H2" and its digits, and sorts by the number those digits spell. |
| MainJs.SubKeyPiece | staticfiles/core/js/main.js:47-48 | A subsection of main key K sorts by `parseInt` of the first `_` piece after `K_`. |
| MainJs.MainSectionOrder | staticfiles/core/js/main.js:26-32 | The main sections are exactly the `^H2_\d+$` entries, a permutation of them in ascending numeric order, ties kept in entry order. |
| MainJs.SubsectionOrder | staticfiles/core/js/main.js:44-50 | The subsections of K are a permutation of the entries whose key starts with `K_`, ordered by their numeric third component, ties kept in entry order. |
| MainJs.ShownValue | staticfiles/core/js/main.js:15-16 | An object renders its `.content`, an array (also `typeof 'object'`) has none, `null` throws, and any other value renders raw; the same test recurs at lines 35 and 53. |
| MainJs.SubContentOnlyWhenTruthy | staticfiles/core/js/main.js:52-60 | A subsection-content div is emitted exactly for object values whose `.content` is truthy, and then shows that content. |
| MainJs.FalsyEdgeOmitted | staticfiles/core/js/main.js:14 | A falsy introduction, or a falsy conclusion (line 68), adds no block. |
| MainJs.PiecesLayout | staticfiles/core/js/main.js:11-80 | The pushed pieces are the container, at most one introduction block, the main sections, at most one conclusion block and the closing tag, in that order. Each edge block is present exactly when its value is truthy. |
| MainJs.RenderedFrame | staticfiles/core/js/main.js:11-81 | The rendered text begins with the container and ends with a newline and the container's closing tag. |
| MainJs.FailuresBecomeMessages | staticfiles/core/js/main.js:82-85 | Text that is not JSON (parsed at lines 6-8), and `null` content, give the error-message div holding the thrown error's message. |
| MainJs.NonObjectIsEmpty | staticfiles/core/js/main.js:11-80 | A value that is not an object and not `null` renders as the bare container. |
| MainJs.NestedKeyDivergence | staticfiles/core/js/main.js:27 | For `{H2_1, H2_1_2}` the browser renders one main section, with `H2_1_2` as its subsection; the server's filter at core/views.py:400 renders two main sections. |
| MainJs.PushMainSections | staticfiles/core/js/main.js:34-65 | The `forEach` over main sections pushes exactly their specified pieces, stopping at the first throw. |
| MainJs.PushSubsections | staticfiles/core/js/main.js:52-61 | The `forEach` over subsections pushes exactly their specified pieces, stopping at the first throw. |
| MainJs.FormatBlogContentImpl | staticfiles/core/js/main.js:3-86 | The function computes exactly `FormatBlogContent`: the joined pieces, or the error-message div. |

## Left out

- The language-model request, its prompt text and the API key (core/utils.py:38-87): a network call. Its outcome is the input `Utils.ApiOutcome`. `documents_content` and `tone` are passed to `GenerateBlogContent` but cannot affect that abstract reply.
- The internals of PyPDF2, python-docx and language_tool: foreign libraries. Their page texts, paragraph texts and matches are inputs.
- Django request and response handling, authentication, messages, redirects, the upload directory and the other views (`generate_blog`, `check_grammar_view`, the document views, signup): framework and I/O plumbing.
- The database. An ownership query is an input: the list of found documents, with `None` when the query raises, or a nullable `Blog`. A failing `Blog.objects.create` or `save` is the single outcome `SaveFailed`, reached when the result has no dictionary to read from or when null would be stored in a column declared without `null=True` (`blog_title`, `topic`, `tone`, `target_keywords`, `additional_keywords`); `blog_outline` and `blog_draft` accept null. In `update_blog` such a null makes the outcome `UpdateFailed`.
- CreateBlog: when the create succeeds and only the later `blog.save()` fails (a null title), the row already inserted by `Blog.objects.create` stays in the database although the answer is 500; the model has no database and returns no blog for it.
- Column lengths (`max_length`) and the conversion of non-string values stored in character columns are not modelled; only null is refused.
- The DOCX export, `Document.delete`'s file removal, `create_blog.js`, the URL configuration and the tests: filesystem, DOM or routing code.
- `get_file_size_mb`: floating-point rounding.
- Django storage's renaming of clashing or unsafe file names, and timestamps: a committed upload's name is exactly what `document_upload_path` returns.
- JSON numbers are integers only: there are no floats.
- `Lower` folds only ASCII letters. Python's `int()` also accepts Unicode digits and `_` separators, which the model does not.
- JavaScript numbers are exact integers in the model, so precision beyond 2^53 is not captured.
- MainJs.SubsectionOrder: a subsection whose third component is not a number (`NaN`) sorts as 0. ECMAScript leaves the order unspecified when a comparator returns `NaN`.
- MainJs.MainSections: `Object.entries` lists integer-like keys first. No such key passes either `H2` filter, so entry order is used.
- A JSON object with a repeated key is read at its first occurrence; `json.loads` and `JSON.parse` would keep the last.
- Views.ReadForm: the form path's `json.dumps` followed by `json.loads` of the selected ids is taken as the identity.
- Views.FormatBlogContent: the text of a list or dictionary value comes from the `quote` parameter, because `repr` of a string is not modelled.
- MainJs.FormatBlogContent: the text of an error message comes from the `messageOf` parameter, because it is engine-specific.
- The server renderer raises `KeyError` for a dictionary value without `content`. The browser prints `undefined` for it instead. Both behaviours are modelled, but no lemma relates the two renderers beyond `MainJs.NestedKeyDivergence`.
- Console output (`print`, `console.error`) is not modelled.

## Findings

| source | as written | input that shows it | evidently intended | confidence | as-written member | corrected member |
|---|---|---|---|---|---|---|
| core/models.py:20-23 | `ext` is computed but not used, so a titled upload is stored without its extension; `extract_text_from_file` (core/utils.py:12-20) then decodes a titled PDF or DOCX as UTF-8 | "report.pdf" with the title "My CV", user 7: stored as `documents/user_7/my_cv`, read as UTF-8 | the clean title followed by the upload's extension, so the upload keeps its reader | not executed | Models.UploadPathExampleReader | Models.UploadPathWithExtensionKeepsReader |
