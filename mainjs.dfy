/**
  The browser's twin of the blog-content renderer, `formatBlogContent` in
  staticfiles/core/js/main.js. It differs from the server's version: only keys
  matching `/^H2_\d+$/` are main sections, subsections are ordered by their
  third `_` component, object values without `content` print as `undefined`,
  and every failure becomes an error message instead of an exception.
*/
module MainJs {
  import opened Wrappers
  import opened Json
  import opened Text
  import opened Sorting
  import Views

  // ---------------------------------------------------------------- JavaScript values as text

  /**
    What the renderer can throw: `JSON.parse` rejecting its input, reading a
    property of `null`, and converting an object with an own `toString`
    (never callable in parsed JSON) to a string.
  */
  datatype JsError = SyntaxError | NullProperty | NoPrimitive

  /** Truthiness of a value, `None` standing for `undefined`; unlike Python, `[]` and `{}` are truthy. */
  predicate JsTruthy(v: Option<Json>)
  {
    match v
    case None => false
    case Some(Null) => false
    case Some(Bool(b)) => b
    case Some(Num(n)) => n != 0
    case Some(Str(s)) => s != ""
    case Some(Arr(_)) => true
    case Some(Obj(_)) => true
  }

  /** `v[k]` as a property read: `null` throws, non-objects have no such own property. */
  function Property(v: Json, k: string): Result<Option<Json>, JsError>
  {
    match v
    case Null => Err(NullProperty)
    case Obj(ms) => Ok(Get(ms, k))
    case _ => Ok(None)
  }

  /** `typeof v === 'object'`, which holds for `null` and arrays too. */
  predicate IsObjectType(v: Json)
  {
    v.Null? || v.Arr? || v.Obj?
  }

  /** `typeof v === 'object' ? v.content : v`: what a section shows. */
  function Shown(v: Json): Result<Option<Json>, JsError>
  {
    if IsObjectType(v) then Property(v, "content") else Ok(Some(v))
  }

  /** The first error among the results, or all the texts. */
  function AllTexts(rs: seq<Result<string, JsError>>): (r: Result<seq<string>, JsError>)
    ensures r.Ok? ==> |r.value| == |rs| && forall i :: 0 <= i < |rs| ==> rs[i] == Ok(r.value[i])
    ensures r.Err? <==> exists i :: 0 <= i < |rs| && rs[i].Err?
  {
    if rs == [] then Ok([])
    else if rs[0].Err? then Err(rs[0].error)
    else
      match AllTexts(rs[1..])
      case Err(e) => Err(e)
      case Ok(ts) => Ok([rs[0].value] + ts)
  }

  /**
    `String(v)` for a parsed value: arrays join their elements with `,`
    (`null` elements as empty), plain objects print as `[object Object]`.
  */
  function ValueString(v: Json): Result<string, JsError>
    decreases v
  {
    match v
    case Null => Ok("null")
    case Bool(b) => Ok(if b then "true" else "false")
    case Num(n) => Ok(DecimalString(n))
    case Str(s) => Ok(s)
    case Arr(xs) =>
      var rs := seq(|xs|, i requires 0 <= i < |xs| => if xs[i].Null? then Ok("") else ValueString(xs[i]));
      (match AllTexts(rs)
       case Err(e) => Err(e)
       case Ok(ts) => Ok(Join(ts, ",")))
    case Obj(ms) => if HasKey(ms, "toString") then Err(NoPrimitive) else Ok("[object Object]")
  }

  /** What `${v}` inserts in a template literal. */
  function JsString(v: Option<Json>): Result<string, JsError>
  {
    match v
    case None => Ok("undefined")
    case Some(x) => ValueString(x)
  }

  // ---------------------------------------------------------------- the template pieces

  function Spaces(n: nat): (r: string)
    ensures |r| == n && forall i :: 0 <= i < n ==> r[i] == ' '
  {
    if n == 0 then "" else Spaces(n - 1) + " "
  }

  const ContainerOpen := "<div class=\"content-container\">"
  const CloseDiv := "</div>"

  /** The introduction or conclusion template. */
  function EdgeBlock(cls: string, heading: string, text: string): string
  {
    "\n" + Spaces(20) + "<div class=\"section " + cls + "\">"
    + "\n" + Spaces(24) + "<h2 class=\"section-title\">" + heading + "</h2>"
    + "\n" + Spaces(24) + "<div class=\"section-content\">" + text + "</div>"
    + "\n" + Spaces(20) + "</div>"
    + "\n" + Spaces(16)
  }

  /** The opening of a main section; its `</div>` is pushed after the subsections. */
  function MainBlock(text: string): string
  {
    "\n" + Spaces(20) + "<div class=\"section main-section\">"
    + "\n" + Spaces(24) + "<h2 class=\"section-title\">" + text + "</h2>"
    + "\n" + Spaces(16)
  }

  /** A subsection; `content` is the content div or empty. */
  function SubBlock(title: string, content: string): string
  {
    "\n" + Spaces(24) + "<div class=\"subsection\">"
    + "\n" + Spaces(28) + "<h3 class=\"subsection-title\">" + title + "</h3>"
    + "\n" + Spaces(28) + content
    + "\n" + Spaces(24) + "</div>"
    + "\n" + Spaces(20)
  }

  function SubContentDiv(text: string): string
  {
    "<div class=\"subsection-content\">" + text + "</div>"
  }

  function ErrorMessage(message: string): string
  {
    "<div class=\"error-message\">Error formatting content: " + message + "</div>"
  }

  // ---------------------------------------------------------------- key selection

  /** `/^H2_\d+$/.test(k)`. */
  predicate IsMainKey(k: string)
  {
    |k| > 3 && k[..3] == "H2_" && AllDigits(k[3..])
  }

  /** `parseInt(k.split('_')[1])`, `None` for NaN. */
  function MainNumber(k: string): Option<int>
  {
    var ps := Split(k, '_');
    if |ps| > 1 then JsParseInt(ps[1]) else None
  }

  /** `parseInt(k.split('_')[2])`, `None` for NaN. */
  function SubNumber(k: string): Option<int>
  {
    var ps := Split(k, '_');
    if |ps| > 2 then JsParseInt(ps[2]) else None
  }

  function MainKey(e: (string, Json)): int
  {
    match MainNumber(e.0)
    case Some(n) => n
    case None => 0
  }

  function SubKey(e: (string, Json)): int
  {
    match SubNumber(e.0)
    case Some(n) => n
    case None => 0
  }

  /** The own enumerable entries a filter on `H2_` keys can see (none of them is an index key). */
  function Entries(c: Json): seq<(string, Json)>
  {
    if c.Obj? then c.members else []
  }

  /** The entries whose key matches the main-section pattern, in order. */
  function MainFilter(ms: seq<(string, Json)>): (r: seq<(string, Json)>)
    ensures forall e :: e in r <==> e in ms && IsMainKey(e.0)
  {
    if ms == [] then []
    else (if IsMainKey(ms[0].0) then [ms[0]] else []) + MainFilter(ms[1..])
  }

  /** The main sections, ascending by their number, stable. */
  function MainSections(ms: seq<(string, Json)>): seq<(string, Json)>
  {
    SortWith(MainFilter(ms), ByKey(MainKey))
  }

  /** The subsections of main key `k`, ascending by their third component, NaN read as 0. */
  function Subsections(ms: seq<(string, Json)>, k: string): seq<(string, Json)>
  {
    SortWith(Views.WithPrefix(ms, k + "_"), ByKey(SubKey))
  }

  // ---------------------------------------------------------------- what is pushed

  /** The introduction or conclusion piece: nothing when the value is falsy. */
  function EdgePart(c: Json, key: string, cls: string, heading: string): Result<seq<string>, JsError>
  {
    match Property(c, key)
    case Err(e) => Err(e)
    case Ok(v) =>
      if !JsTruthy(v) then Ok([])
      else
        match Shown(v.value)
        case Err(e) => Err(e)
        case Ok(t) =>
          match JsString(t)
          case Err(e) => Err(e)
          case Ok(s) => Ok([EdgeBlock(cls, heading, s)])
  }

  /** One subsection piece: the content div only for an object with truthy `content`. */
  function SubPiece(e: (string, Json)): Result<string, JsError>
  {
    match Shown(e.1)
    case Err(err) => Err(err)
    case Ok(t) =>
      match JsString(t)
      case Err(err) => Err(err)
      case Ok(title) =>
        if e.1.Obj? && JsTruthy(Get(e.1.members, "content")) then
          match JsString(Get(e.1.members, "content"))
          case Err(err) => Err(err)
          case Ok(text) => Ok(SubBlock(title, SubContentDiv(text)))
        else Ok(SubBlock(title, ""))
  }

  function SubPieces(xs: seq<(string, Json)>): Result<seq<string>, JsError>
  {
    if xs == [] then Ok([])
    else
      match SubPieces(xs[..|xs| - 1])
      case Err(e) => Err(e)
      case Ok(a) =>
        match SubPiece(xs[|xs| - 1])
        case Err(e) => Err(e)
        case Ok(b) => Ok(a + [b])
  }

  /** One main section: its opening, its subsections, and the closing `</div>`. */
  function MainPieces(ms: seq<(string, Json)>, e: (string, Json)): Result<seq<string>, JsError>
  {
    match Shown(e.1)
    case Err(err) => Err(err)
    case Ok(t) =>
      match JsString(t)
      case Err(err) => Err(err)
      case Ok(s) =>
        match SubPieces(Subsections(ms, e.0))
        case Err(err) => Err(err)
        case Ok(subs) => Ok([MainBlock(s)] + subs + [CloseDiv])
  }

  function MainsPieces(ms: seq<(string, Json)>, xs: seq<(string, Json)>): Result<seq<string>, JsError>
  {
    if xs == [] then Ok([])
    else
      match MainsPieces(ms, xs[..|xs| - 1])
      case Err(e) => Err(e)
      case Ok(a) =>
        match MainPieces(ms, xs[|xs| - 1])
        case Err(e) => Err(e)
        case Ok(b) => Ok(a + b)
  }

  /** The `html` list for an already parsed value. */
  function Pieces(c: Json): Result<seq<string>, JsError>
  {
    match EdgePart(c, "introduction", "introduction-section", "Introduction")
    case Err(e) => Err(e)
    case Ok(intro) =>
      match MainsPieces(Entries(c), MainSections(Entries(c)))
      case Err(e) => Err(e)
      case Ok(body) =>
        match EdgePart(c, "conclusion", "conclusion-section", "Conclusion")
        case Err(e) => Err(e)
        case Ok(concl) => Ok([ContainerOpen] + intro + body + concl + [CloseDiv])
  }

  /** The body of the `try`: parse a string, then build and join the pieces. */
  function Render(content: Json, parse: string -> Parse): Result<string, JsError>
  {
    var c := if content.Str? then parse(content.s) else Parsed(content);
    if c.Malformed? then Err(SyntaxError)
    else
      match Pieces(c.value)
      case Err(e) => Err(e)
      case Ok(ps) => Ok(Join(ps, "\n"))
  }

  /** `formatBlogContent`; `messageOf` is the engine's `error.message`. */
  function FormatBlogContent(content: Json, parse: string -> Parse, messageOf: JsError -> string): string
  {
    match Render(content, parse)
    case Ok(s) => s
    case Err(e) => ErrorMessage(messageOf(e))
  }

  // ---------------------------------------------------------------- properties

  /** Digits hold no `_`. */
  lemma DigitsNoUnderscore(d: string)
    requires AllDigits(d)
    ensures '_' !in d
  {
    forall i | 0 <= i < |d| ensures d[i] != '_' {
      assert IsDigit(d[i]);
    }
  }

  /** `"H2_" + d` splits into `"H2"` and `d` when `d` has no `_`. */
  lemma SplitH2(d: string)
    requires '_' !in d
    ensures Split("H2_" + d, '_') == ["H2", d]
  {
    var t := "_" + d;
    SplitAfterSep(d);
    SplitPrefix("H2", t, '_');
    assert "H2_" + d == "H2" + t;
    assert "H2" + "" == "H2";
  }

  lemma SplitAfterSep(d: string)
    requires '_' !in d
    ensures Split("_" + d, '_') == ["", d]
  {
    var t := "_" + d;
    SplitFree(d, '_');
    assert t[0] == '_' && t[1..] == d;
  }

  /** A main key's number is the decimal value of its digits, which `parseInt` always reads. */
  lemma MainKeyNumber(k: string)
    requires IsMainKey(k)
    ensures Split(k, '_') == ["H2", k[3..]]
    ensures MainNumber(k) == Some(DigitsValue(k[3..]))
  {
    var d := k[3..];
    DigitsNoUnderscore(d);
    assert k == "H2_" + d;
    SplitH2(d);
    JsParseIntDigits(d);
  }

  /** Of a subsection key `k_rest` the third component is the first `_` piece of `rest`. */
  lemma SubKeyPiece(k: string, rest: string)
    requires IsMainKey(k)
    ensures |Split(k + "_" + rest, '_')| > 2 && Split(k + "_" + rest, '_')[2] == Split(rest, '_')[0]
    ensures SubNumber(k + "_" + rest) == JsParseInt(Split(rest, '_')[0])
  {
    var d := k[3..];
    DigitsNoUnderscore(d);
    var t := d + ("_" + rest);
    assert k + "_" + rest == "H2" + ("_" + t);
    SplitPrefix(d, "_" + rest, '_');
    assert ("_" + rest)[1..] == rest;
    assert Split("_" + rest, '_') == [""] + Split(rest, '_');
    assert d + "" == d;
    assert Split(t, '_') == [d] + Split(rest, '_');
    assert ("_" + t)[1..] == t;
    assert Split("_" + t, '_') == [""] + Split(t, '_');
    SplitPrefix("H2", "_" + t, '_');
    assert "H2" + "" == "H2";
  }

  /**
    The main sections are exactly the entries whose key matches `/^H2_\d+$/`,
    in ascending order of that number, entries with equal numbers in
    dictionary order.
  */
  lemma MainSectionOrder(ms: seq<(string, Json)>)
    ensures multiset(MainSections(ms)) == multiset(MainFilter(ms))
    ensures forall e :: e in MainSections(ms) <==> e in ms && IsMainKey(e.0)
    ensures SortedBy(MainSections(ms), MainKey)
    ensures forall n :: WithKey(MainSections(ms), MainKey, n) == WithKey(MainFilter(ms), MainKey, n)
  {
    var w := MainFilter(ms);
    SortSorted(w, MainKey);
    forall e ensures e in MainSections(ms) <==> e in w {
      assert e in MainSections(ms) <==> e in multiset(MainSections(ms));
      assert e in w <==> e in multiset(w);
    }
    forall n ensures WithKey(MainSections(ms), MainKey, n) == WithKey(w, MainKey, n) {
      SortStable(w, MainKey, n);
    }
  }

  /** The sort key of a main section is the number its key spells. */
  lemma MainKeyIsNumber(e: (string, Json))
    requires IsMainKey(e.0)
    ensures MainKey(e) == DigitsValue(e.0[3..])
  {
    MainKeyNumber(e.0);
  }

  /**
    Under main key `k` the subsections are the `k_` entries, ascending by
    their third component, entries with equal numbers in dictionary order.
  */
  lemma SubsectionOrder(ms: seq<(string, Json)>, k: string)
    ensures multiset(Subsections(ms, k)) == multiset(Views.WithPrefix(ms, k + "_"))
    ensures forall e :: e in Subsections(ms, k) <==> e in ms && StartsWith(e.0, k + "_")
    ensures SortedBy(Subsections(ms, k), SubKey)
    ensures forall n :: WithKey(Subsections(ms, k), SubKey, n) == WithKey(Views.WithPrefix(ms, k + "_"), SubKey, n)
  {
    var w := Views.WithPrefix(ms, k + "_");
    SortSorted(w, SubKey);
    forall e ensures e in Subsections(ms, k) <==> e in w {
      assert e in Subsections(ms, k) <==> e in multiset(Subsections(ms, k));
      assert e in w <==> e in multiset(w);
    }
    forall n ensures WithKey(Subsections(ms, k), SubKey, n) == WithKey(w, SubKey, n) {
      SortStable(w, SubKey, n);
    }
  }

  /** Object values show their `content` (`undefined` when absent); other values show themselves. */
  lemma ShownValue(v: Json)
    ensures v.Obj? ==> Shown(v) == Ok(Get(v.members, "content"))
    ensures v.Arr? ==> Shown(v) == Ok(None)
    ensures !IsObjectType(v) ==> Shown(v) == Ok(Some(v))
    ensures v.Null? ==> Shown(v) == Err(NullProperty)
  {
  }

  /** A subsection gets a content div exactly when its value is an object with truthy `content`. */
  lemma SubContentOnlyWhenTruthy(e: (string, Json))
    requires SubPiece(e).Ok?
    ensures var title := JsString(Shown(e.1).value).value;
      if e.1.Obj? && JsTruthy(Get(e.1.members, "content"))
      then SubPiece(e) == Ok(SubBlock(title, SubContentDiv(JsString(Get(e.1.members, "content")).value)))
      else SubPiece(e) == Ok(SubBlock(title, ""))
  {
  }

  /** A falsy or missing introduction or conclusion contributes no piece. */
  lemma FalsyEdgeOmitted(ms: seq<(string, Json)>, key: string, cls: string, heading: string)
    requires !JsTruthy(Get(ms, key))
    ensures EdgePart(Obj(ms), key, cls, heading) == Ok([])
  {
  }

  /**
    The pieces open with the container and close it; a truthy introduction
    is the piece right after the opening and a truthy conclusion the piece
    right before the closing, so the main sections lie between them.
  */
  lemma PiecesLayout(c: Json)
    requires Pieces(c).Ok?
    ensures var ps := Pieces(c).value;
      var intro := EdgePart(c, "introduction", "introduction-section", "Introduction").value;
      var body := MainsPieces(Entries(c), MainSections(Entries(c))).value;
      var concl := EdgePart(c, "conclusion", "conclusion-section", "Conclusion").value;
      && ps == [ContainerOpen] + intro + body + concl + [CloseDiv]
      && |intro| <= 1 && |concl| <= 1
      && (|intro| == 1 <==> c.Obj? && JsTruthy(Get(c.members, "introduction")))
      && (|concl| == 1 <==> c.Obj? && JsTruthy(Get(c.members, "conclusion")))
  {
  }

  /** The rendered text starts with the container and ends with its closing tag. */
  lemma RenderedFrame(content: Json, parse: string -> Parse)
    requires Render(content, parse).Ok?
    ensures StartsWith(Render(content, parse).value, ContainerOpen)
    ensures EndsWith(Render(content, parse).value, "\n" + CloseDiv)
  {
    var c := if content.Str? then parse(content.s).value else content;
    var ps := Pieces(c).value;
    PiecesLayout(c);
    JoinFirst(ps, "\n");
    JoinEnds(ps, "\n");
  }

  /** Text that is not JSON, and `null`, become the error message. */
  lemma FailuresBecomeMessages(s: string, parse: string -> Parse, messageOf: JsError -> string)
    ensures parse(s).Malformed? ==> FormatBlogContent(Str(s), parse, messageOf) == ErrorMessage(messageOf(SyntaxError))
    ensures FormatBlogContent(Null, parse, messageOf) == ErrorMessage(messageOf(NullProperty))
    ensures parse(s) == Parsed(Null) ==> FormatBlogContent(Str(s), parse, messageOf) == ErrorMessage(messageOf(NullProperty))
  {
  }

  /** A value that is not an object, and not `null`, renders as the empty container. */
  lemma NonObjectIsEmpty(c: Json)
    requires !c.Obj? && !c.Null?
    ensures Pieces(c) == Ok([ContainerOpen, CloseDiv])
  {
    assert Entries(c) == [] && MainFilter([]) == [];
    assert MainSections([]) == [];
    assert MainsPieces([], []) == Ok([]);
    assert [ContainerOpen] + [] + [] + [] + [CloseDiv] == [ContainerOpen, CloseDiv];
    assert EdgePart(c, "introduction", "introduction-section", "Introduction") == Ok([]);
    assert EdgePart(c, "conclusion", "conclusion-section", "Conclusion") == Ok([]);
  }

  /**
    The two renderers disagree on `H2_1_2`: the server makes it a second main
    section, the browser only a subsection of `H2_1`.
  */
  lemma NestedKeyDivergence()
    ensures var ms := [("H2_1", Str("A")), ("H2_1_2", Str("B"))];
      && |Views.WithPrefix(ms, "H2_")| == 2
      && MainFilter(ms) == [("H2_1", Str("A"))]
      && Views.WithPrefix(ms, "H2_1_") == [("H2_1_2", Str("B"))]
  {
    var ms := [("H2_1", Str("A")), ("H2_1_2", Str("B"))];
    assert StartsWith("H2_1", "H2_") && StartsWith("H2_1_2", "H2_");
    assert IsMainKey("H2_1");
    assert !AllDigits("1_2") by {
      assert !IsDigit("1_2"[1]);
    }
    assert "H2_1_2"[3..] == "1_2";
    assert !StartsWith("H2_1", "H2_1_");
    assert StartsWith("H2_1_2", "H2_1_");
  }

  // ---------------------------------------------------------------- the renderer, step by step

  lemma {:induction false} SubPiecesPrefixErr(xs: seq<(string, Json)>, i: nat)
    requires i <= |xs| && SubPieces(xs[..i]).Err?
    ensures SubPieces(xs) == SubPieces(xs[..i])
    decreases |xs| - i
  {
    if i < |xs| {
      assert xs[..i + 1][..i] == xs[..i];
      SubPiecesPrefixErr(xs, i + 1);
    } else {
      assert xs[..i] == xs;
    }
  }

  lemma {:induction false} MainsPiecesPrefixErr(ms: seq<(string, Json)>, xs: seq<(string, Json)>, i: nat)
    requires i <= |xs| && MainsPieces(ms, xs[..i]).Err?
    ensures MainsPieces(ms, xs) == MainsPieces(ms, xs[..i])
    decreases |xs| - i
  {
    if i < |xs| {
      assert xs[..i + 1][..i] == xs[..i];
      MainsPiecesPrefixErr(ms, xs, i + 1);
    } else {
      assert xs[..i] == xs;
    }
  }

  /** One more subsection: its piece is appended, or its error ends the fold. */
  lemma SubPiecesStep(xs: seq<(string, Json)>, i: nat, a: seq<string>)
    requires i < |xs| && SubPieces(xs[..i]) == Ok(a)
    ensures SubPieces(xs[..i + 1]) ==
      match SubPiece(xs[i])
      case Err(e) => Err(e)
      case Ok(b) => Ok(a + [b])
  {
    assert xs[..i + 1][..i] == xs[..i];
  }

  /** One more main section: its pieces are appended, or its error ends the fold. */
  lemma MainsPiecesStep(ms: seq<(string, Json)>, xs: seq<(string, Json)>, i: nat, a: seq<string>)
    requires i < |xs| && MainsPieces(ms, xs[..i]) == Ok(a)
    ensures MainsPieces(ms, xs[..i + 1]) ==
      match MainPieces(ms, xs[i])
      case Err(e) => Err(e)
      case Ok(b) => Ok(a + b)
  {
    assert xs[..i + 1][..i] == xs[..i];
  }

  /** The `subsections.forEach` loop. */
  method PushSubsections(subs: seq<(string, Json)>) returns (r: Result<seq<string>, JsError>)
    ensures r == SubPieces(subs)
  {
    var html: seq<string> := [];
    var i := 0;
    while i < |subs|
      invariant 0 <= i <= |subs|
      invariant SubPieces(subs[..i]) == Ok(html)
    {
      SubPiecesStep(subs, i, html);
      var piece := SubPiece(subs[i]);
      if piece.Err? {
        SubPiecesPrefixErr(subs, i + 1);
        return Err(piece.error);
      }
      html := html + [piece.value];
      i := i + 1;
    }
    assert subs[..|subs|] == subs;
    return Ok(html);
  }

  /** The `mainSections.forEach` loop. */
  method PushMainSections(ms: seq<(string, Json)>, mains: seq<(string, Json)>) returns (r: Result<seq<string>, JsError>)
    ensures r == MainsPieces(ms, mains)
  {
    var html: seq<string> := [];
    var i := 0;
    while i < |mains|
      invariant 0 <= i <= |mains|
      invariant MainsPieces(ms, mains[..i]) == Ok(html)
    {
      MainsPiecesStep(ms, mains, i, html);
      var h2 := mains[i];
      var shown := Shown(h2.1);
      var text := if shown.Ok? then JsString(shown.value) else Err(shown.error);
      if text.Err? {
        MainsPiecesPrefixErr(ms, mains, i + 1);
        return Err(text.error);
      }
      var subs := PushSubsections(Subsections(ms, h2.0));
      if subs.Err? {
        MainsPiecesPrefixErr(ms, mains, i + 1);
        return Err(subs.error);
      }
      assert MainPieces(ms, h2) == Ok([MainBlock(text.value)] + subs.value + [CloseDiv]);
      html := html + ([MainBlock(text.value)] + subs.value + [CloseDiv]);
      i := i + 1;
    }
    assert mains[..|mains|] == mains;
    return Ok(html);
  }

  /** `formatBlogContent`, pushing onto `html` as the script does and catching every error. */
  method FormatBlogContentImpl(content: Json, parse: string -> Parse, messageOf: JsError -> string)
    returns (out: string)
    ensures out == FormatBlogContent(content, parse, messageOf)
  {
    var c := content;
    if content.Str? {
      var p := parse(content.s);
      if p.Malformed? {
        return ErrorMessage(messageOf(SyntaxError));
      }
      c := p.value;
    }
    var html := [ContainerOpen];
    var intro := EdgePart(c, "introduction", "introduction-section", "Introduction");
    if intro.Err? {
      return ErrorMessage(messageOf(intro.error));
    }
    html := html + intro.value;
    var ms := Entries(c);
    var mains := SortWith(MainFilter(ms), ByKey(MainKey));
    var body := PushMainSections(ms, mains);
    if body.Err? {
      return ErrorMessage(messageOf(body.error));
    }
    html := html + body.value;
    var concl := EdgePart(c, "conclusion", "conclusion-section", "Conclusion");
    if concl.Err? {
      return ErrorMessage(messageOf(concl.error));
    }
    html := html + concl.value + [CloseDiv];
    return Join(html, "\n");
  }
}
