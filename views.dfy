/**
  The pure and sequential parts of the views (core/views.py): the blog-content
  renderer `format_blog_content`, the checks and the extraction loop of
  `create_blog`, and the partial update of `update_blog`. Requests, responses
  and the database are reduced to the values these parts use.
*/
module Views {
  import opened Wrappers
  import opened Json
  import opened Text
  import opened Sorting
  import opened Lines
  import Utils
  import Models

  // ---------------------------------------------------------------- Python values as text

  /** What the renderer can raise. */
  datatype PyError = TypeError | KeyError(key: string) | ValueError | AttributeError

  /**
    `repr(v)` for a JSON value; `quote` is `repr` of a string, whose choice of
    quote character and escapes is not modelled.
  */
  function PyRepr(v: Json, quote: string -> string): string
    decreases v, 0
  {
    match v
    case Null => "None"
    case Bool(b) => if b then "True" else "False"
    case Num(n) => DecimalString(n)
    case Str(s) => quote(s)
    case Arr(xs) => "[" + Join(seq(|xs|, i requires 0 <= i < |xs| => PyRepr(xs[i], quote)), ", ") + "]"
    case Obj(ms) =>
      "{" + Join(seq(|ms|, i requires 0 <= i < |ms| => quote(ms[i].0) + ": " + PyRepr(ms[i].1, quote)), ", ") + "}"
  }

  /** `str(v)`, which is what an f-string inserts. */
  function PyStr(v: Json, quote: string -> string): string
    decreases v, 1
  {
    if v.Str? then v.s else PyRepr(v, quote)
  }

  // ---------------------------------------------------------------- lines of the Python renderer

  const Container := "<div class=\"content-container\">"
  const MainOpen := "<div class=\"section main-section\">"
  const SubOpen := "<div class=\"subsection\">"
  const Close := "</div>"

  function SectionOpen(cls: string): string { "<div class=\"section " + cls + "\">" }
  function SectionTitle(t: string): string { "<h2 class=\"section-title\">" + t + "</h2>" }
  function SectionContent(t: string): string { "<div class=\"section-content\">" + t + "</div>" }
  function SubTitle(t: string): string { "<h3 class=\"subsection-title\">" + t + "</h3>" }
  function SubContent(t: string): string { "<div class=\"subsection-content\">" + t + "</div>" }

  /** The text shown for a value: `v["content"]` of a dictionary, otherwise `v` itself. */
  function ValueText(v: Json, quote: string -> string): Result<string, PyError>
  {
    if v.Obj? then
      match Get(v.members, "content")
      case None => Err(KeyError("content"))
      case Some(c) => Ok(PyStr(c, quote))
    else Ok(PyStr(v, quote))
  }

  /** The introduction or conclusion block: nothing when the key is absent. */
  function EdgeLines(ms: seq<(string, Json)>, key: string, heading: string, cls: string,
                     quote: string -> string): Result<seq<string>, PyError>
  {
    match Get(ms, key)
    case None => Ok([])
    case Some(v) =>
      match ValueText(v, quote)
      case Err(e) => Err(e)
      case Ok(t) => Ok([SectionOpen(cls), SectionTitle(heading), SectionContent(t), Close])
  }

  /** The entries whose key starts with `p`, in dictionary order. */
  function WithPrefix(ms: seq<(string, Json)>, p: string): (r: seq<(string, Json)>)
    ensures forall e :: e in r <==> e in ms && StartsWith(e.0, p)
    ensures |r| <= |ms|
  {
    if ms == [] then []
    else (if StartsWith(ms[0].0, p) then [ms[0]] else []) + WithPrefix(ms[1..], p)
  }

  /** `int(k.split('_')[1])`. */
  function SectionNumber(k: string): Option<int>
  {
    var ps := Split(k, '_');
    if |ps| > 1 then PyInt(ps[1]) else None
  }

  /** `int(k.split('_')[-1])`. */
  function SubsectionNumber(k: string): Option<int>
  {
    PyInt(LastPiece(k, '_'))
  }

  /** Every sort key can be computed, so `sort` does not raise. */
  predicate AllNumbered(entries: seq<(string, Json)>, number: string -> Option<int>)
  {
    forall i :: 0 <= i < |entries| ==> number(entries[i].0).Some?
  }

  function SectionKey(e: (string, Json)): int
  {
    match SectionNumber(e.0)
    case Some(n) => n
    case None => 0
  }

  function SubsectionKey(e: (string, Json)): int
  {
    match SubsectionNumber(e.0)
    case Some(n) => n
    case None => 0
  }

  /** One subsection: a dictionary always gets both its title and its content line. */
  function SubsectionLines(e: (string, Json), quote: string -> string): Result<seq<string>, PyError>
  {
    if e.1.Obj? then
      match Get(e.1.members, "content")
      case None => Err(KeyError("content"))
      case Some(c) => Ok([SubOpen, SubTitle(PyStr(c, quote)), SubContent(PyStr(c, quote)), Close])
    else Ok([SubOpen, SubTitle(PyStr(e.1, quote)), Close])
  }

  /** The subsections in turn, stopping at the first error. */
  function SubsectionsLines(xs: seq<(string, Json)>, quote: string -> string): Result<seq<string>, PyError>
  {
    if xs == [] then Ok([])
    else
      match SubsectionsLines(xs[..|xs| - 1], quote)
      case Err(e) => Err(e)
      case Ok(a) =>
        match SubsectionLines(xs[|xs| - 1], quote)
        case Err(e) => Err(e)
        case Ok(b) => Ok(a + b)
  }

  /** The subsections of main key `k`, ordered by their last number. */
  function SortedSubsections(ms: seq<(string, Json)>, k: string): seq<(string, Json)>
  {
    SortWith(WithPrefix(ms, k + "_"), ByKey(SubsectionKey))
  }

  /** One main section with its subsections. */
  function MainSectionLines(ms: seq<(string, Json)>, e: (string, Json), quote: string -> string)
    : Result<seq<string>, PyError>
  {
    match ValueText(e.1, quote)
    case Err(err) => Err(err)
    case Ok(t) =>
      if !AllNumbered(WithPrefix(ms, e.0 + "_"), SubsectionNumber) then Err(ValueError)
      else
        match SubsectionsLines(SortedSubsections(ms, e.0), quote)
        case Err(err) => Err(err)
        case Ok(lines) => Ok([MainOpen, SectionTitle(t)] + lines + [Close])
  }

  /** The main sections in turn, stopping at the first error. */
  function MainSectionsLines(ms: seq<(string, Json)>, xs: seq<(string, Json)>, quote: string -> string)
    : Result<seq<string>, PyError>
  {
    if xs == [] then Ok([])
    else
      match MainSectionsLines(ms, xs[..|xs| - 1], quote)
      case Err(e) => Err(e)
      case Ok(a) =>
        match MainSectionLines(ms, xs[|xs| - 1], quote)
        case Err(e) => Err(e)
        case Ok(b) => Ok(a + b)
  }

  /** Every `H2_` key, subsection keys included, ordered by the number after the first `_`. */
  function SortedSections(ms: seq<(string, Json)>): seq<(string, Json)>
  {
    SortWith(WithPrefix(ms, "H2_"), ByKey(SectionKey))
  }

  /** The lines for a dictionary, before they are joined. */
  function ObjectLines(ms: seq<(string, Json)>, quote: string -> string): Result<seq<string>, PyError>
  {
    match EdgeLines(ms, "introduction", "Introduction", "introduction-section", quote)
    case Err(e) => Err(e)
    case Ok(intro) =>
      if !AllNumbered(WithPrefix(ms, "H2_"), SectionNumber) then Err(ValueError)
      else
        match MainSectionsLines(ms, SortedSections(ms), quote)
        case Err(e) => Err(e)
        case Ok(body) =>
          match EdgeLines(ms, "conclusion", "Conclusion", "conclusion-section", quote)
          case Err(e) => Err(e)
          case Ok(concl) => Ok([Container] + intro + body + concl + [Close])
  }

  /** What `'introduction' in v` and `v.items()` raise for a parsed value that is not a dictionary. */
  function NonObjectError(v: Json): PyError
  {
    match v
    case Arr(xs) => if Str("introduction") in xs then TypeError else AttributeError
    case Str(s) => if Utils.Contains(s, "introduction") then TypeError else AttributeError
    case _ => TypeError
  }

  /** `format_blog_content`; `parse` is `json.loads`. */
  function FormatBlogContent(content: Json, parse: string -> Parse, quote: string -> string)
    : Result<string, PyError>
  {
    if !PyTruthy(content) then Ok("")
    else if content.Str? && parse(content.s).Malformed? then
      Ok("<div class='content-section'>" + content.s + "</div>")
    else
      var c := if content.Str? then parse(content.s).value else content;
      if !c.Obj? then Err(NonObjectError(c))
      else
        match ObjectLines(c.members, quote)
        case Err(e) => Err(e)
        case Ok(lines) => Ok(Join(lines, "\n"))
  }

  // ---------------------------------------------------------------- properties of the renderer

  /**
    Sorting by a number that every entry has puts the entries in ascending
    order of `key`, and every sorted entry still has its number.
  */
  lemma SortedByNumber(w: seq<(string, Json)>, number: string -> Option<int>, key: ((string, Json)) -> int)
    requires AllNumbered(w, number)
    ensures SortedBy(SortWith(w, ByKey(key)), key)
    ensures AllNumbered(SortWith(w, ByKey(key)), number)
  {
    var s := SortWith(w, ByKey(key));
    SortSorted(w, key);
    forall i | 0 <= i < |s| ensures number(s[i].0).Some? {
      assert s[i] in multiset(w);
      var k :| 0 <= k < |w| && w[k] == s[i];
    }
  }

  /** Sorting keeps exactly the entries it was given. */
  lemma SortedSame(w: seq<(string, Json)>, key: ((string, Json)) -> int)
    ensures multiset(SortWith(w, ByKey(key))) == multiset(w)
    ensures forall e :: e in w ==> e in SortWith(w, ByKey(key))
  {
    forall e | e in w ensures e in SortWith(w, ByKey(key)) {
      assert e in multiset(w);
    }
  }

  /** The sort key of a numbered entry is its number. */
  lemma KeysAreNumbers(e: (string, Json))
    ensures SectionNumber(e.0).Some? ==> SectionKey(e) == SectionNumber(e.0).value
    ensures SubsectionNumber(e.0).Some? ==> SubsectionKey(e) == SubsectionNumber(e.0).value
  {
  }

  /**
    The main sections are every `H2_` entry, `H2_1_2` and the like included,
    in ascending order of the number after the first `_` (`SectionKey`, which
    is that number), entries with equal numbers in dictionary order.
  */
  lemma SectionOrder(ms: seq<(string, Json)>)
    requires AllNumbered(WithPrefix(ms, "H2_"), SectionNumber)
    ensures multiset(SortedSections(ms)) == multiset(WithPrefix(ms, "H2_"))
    ensures forall e :: e in ms && StartsWith(e.0, "H2_") ==> e in SortedSections(ms)
    ensures SortedBy(SortedSections(ms), SectionKey) && AllNumbered(SortedSections(ms), SectionNumber)
    ensures forall n :: WithKey(SortedSections(ms), SectionKey, n) == WithKey(WithPrefix(ms, "H2_"), SectionKey, n)
  {
    var w := WithPrefix(ms, "H2_");
    SortedSame(w, SectionKey);
    SortedByNumber(w, SectionNumber, SectionKey);
    forall n ensures WithKey(SortedSections(ms), SectionKey, n) == WithKey(w, SectionKey, n) {
      SortStable(w, SectionKey, n);
    }
  }

  /** Under main key `k` the subsections are the `k_` entries, ascending by their last number, stable. */
  lemma SubsectionOrder(ms: seq<(string, Json)>, k: string)
    requires AllNumbered(WithPrefix(ms, k + "_"), SubsectionNumber)
    ensures multiset(SortedSubsections(ms, k)) == multiset(WithPrefix(ms, k + "_"))
    ensures forall e :: e in ms && StartsWith(e.0, k + "_") ==> e in SortedSubsections(ms, k)
    ensures SortedBy(SortedSubsections(ms, k), SubsectionKey) && AllNumbered(SortedSubsections(ms, k), SubsectionNumber)
    ensures forall n :: WithKey(SortedSubsections(ms, k), SubsectionKey, n) == WithKey(WithPrefix(ms, k + "_"), SubsectionKey, n)
  {
    var w := WithPrefix(ms, k + "_");
    SortedSame(w, SubsectionKey);
    SortedByNumber(w, SubsectionNumber, SubsectionKey);
    forall n ensures WithKey(SortedSubsections(ms, k), SubsectionKey, n) == WithKey(w, SubsectionKey, n) {
      SortStable(w, SubsectionKey, n);
    }
  }

  /** None of the lines other than a main section's first is the main-section opening line. */
  lemma NotMainOpen(t: string)
    ensures SectionTitle(t) != MainOpen && SubTitle(t) != MainOpen
    ensures SectionContent(t) != MainOpen && SubContent(t) != MainOpen
    ensures SubOpen != MainOpen && Close != MainOpen && Container != MainOpen
    ensures SectionOpen("introduction-section") != MainOpen && SectionOpen("conclusion-section") != MainOpen
  {
    PrefixDiffers("<h2 class=\"section-title\">", t + "</h2>", MainOpen, 1);
    assert SectionTitle(t) == "<h2 class=\"section-title\">" + (t + "</h2>");
    PrefixDiffers("<h3 class=\"subsection-title\">", t + "</h3>", MainOpen, 1);
    assert SubTitle(t) == "<h3 class=\"subsection-title\">" + (t + "</h3>");
    PrefixDiffers("<div class=\"section-content\">", t + "</div>", MainOpen, 19);
    assert SectionContent(t) == "<div class=\"section-content\">" + (t + "</div>");
    PrefixDiffers("<div class=\"subsection-content\">", t + "</div>", MainOpen, 13);
    assert SubContent(t) == "<div class=\"subsection-content\">" + (t + "</div>");
    assert |SectionOpen("introduction-section")| != |MainOpen|;
    assert |SectionOpen("conclusion-section")| != |MainOpen|;
  }

  lemma EdgeLinesNoMain(ms: seq<(string, Json)>, key: string, heading: string, cls: string, quote: string -> string)
    requires cls == "introduction-section" || cls == "conclusion-section"
    requires EdgeLines(ms, key, heading, cls, quote).Ok?
    ensures Count(EdgeLines(ms, key, heading, cls, quote).value, MainOpen) == 0
    ensures |EdgeLines(ms, key, heading, cls, quote).value| == if HasKey(ms, key) then 4 else 0
  {
    if HasKey(ms, key) {
      var t := ValueText(Get(ms, key).value, quote).value;
      NotMainOpen(t);
      NotMainOpen(heading);
    }
  }

  lemma {:induction false} SubsectionsNoMain(xs: seq<(string, Json)>, quote: string -> string)
    requires SubsectionsLines(xs, quote).Ok?
    ensures Count(SubsectionsLines(xs, quote).value, MainOpen) == 0
  {
    if xs != [] {
      var init := xs[..|xs| - 1];
      SubsectionsNoMain(init, quote);
      var e := xs[|xs| - 1];
      var b := SubsectionLines(e, quote).value;
      if e.1.Obj? {
        NotMainOpen(PyStr(Get(e.1.members, "content").value, quote));
      } else {
        NotMainOpen(PyStr(e.1, quote));
      }
      assert Count(b, MainOpen) == 0;
      CountAppend(SubsectionsLines(init, quote).value, b, MainOpen);
    }
  }

  lemma MainSectionOpensOnce(ms: seq<(string, Json)>, e: (string, Json), quote: string -> string)
    requires MainSectionLines(ms, e, quote).Ok?
    ensures Count(MainSectionLines(ms, e, quote).value, MainOpen) == 1
  {
    var t := ValueText(e.1, quote).value;
    var lines := SubsectionsLines(SortedSubsections(ms, e.0), quote).value;
    SubsectionsNoMain(SortedSubsections(ms, e.0), quote);
    NotMainOpen(t);
    CountAppend([MainOpen, SectionTitle(t)], lines, MainOpen);
    CountAppend([MainOpen, SectionTitle(t)] + lines, [Close], MainOpen);
  }

  lemma {:induction false} MainSectionsCount(ms: seq<(string, Json)>, xs: seq<(string, Json)>, quote: string -> string)
    requires MainSectionsLines(ms, xs, quote).Ok?
    ensures Count(MainSectionsLines(ms, xs, quote).value, MainOpen) == |xs|
  {
    if xs != [] {
      var init := xs[..|xs| - 1];
      MainSectionsCount(ms, init, quote);
      MainSectionOpensOnce(ms, xs[|xs| - 1], quote);
      CountAppend(MainSectionsLines(ms, init, quote).value, MainSectionLines(ms, xs[|xs| - 1], quote).value, MainOpen);
    }
  }

  /** A rendered dictionary has exactly one main-section block per `H2_` key. */
  lemma MainSectionCount(ms: seq<(string, Json)>, quote: string -> string)
    requires ObjectLines(ms, quote).Ok?
    ensures Count(ObjectLines(ms, quote).value, MainOpen) == |WithPrefix(ms, "H2_")|
  {
    var intro := EdgeLines(ms, "introduction", "Introduction", "introduction-section", quote).value;
    var body := MainSectionsLines(ms, SortedSections(ms), quote).value;
    var concl := EdgeLines(ms, "conclusion", "Conclusion", "conclusion-section", quote).value;
    EdgeLinesNoMain(ms, "introduction", "Introduction", "introduction-section", quote);
    EdgeLinesNoMain(ms, "conclusion", "Conclusion", "conclusion-section", quote);
    MainSectionsCount(ms, SortedSections(ms), quote);
    NotMainOpen("");
    CountAppend([Container], intro, MainOpen);
    CountAppend([Container] + intro, body, MainOpen);
    CountAppend([Container] + intro + body, concl, MainOpen);
    CountAppend([Container] + intro + body + concl, [Close], MainOpen);
  }

  /** Main-section openings framed by blocks without one lie strictly inside the body. */
  lemma FrameLayout(intro: seq<string>, body: seq<string>, concl: seq<string>)
    requires MainOpen !in intro && MainOpen !in concl
    ensures var lines := [Container] + intro + body + concl + [Close];
      forall i :: 0 <= i < |lines| && lines[i] == MainOpen ==> 1 + |intro| <= i < |lines| - 1 - |concl|
  {
    var lines := [Container] + intro + body + concl + [Close];
    NotMainOpen("");
    forall i | 0 <= i < 1 + |intro| ensures lines[i] != MainOpen {
      if i > 0 {
        assert lines[i] == intro[i - 1];
      }
    }
    forall i | |lines| - 1 - |concl| <= i < |lines| ensures lines[i] != MainOpen {
      if i < |lines| - 1 {
        assert lines[i] == concl[i - (1 + |intro| + |body|)];
      }
    }
  }

  /** Where the first lines of the two framing blocks land. */
  lemma FrameEdges(intro: seq<string>, body: seq<string>, concl: seq<string>)
    ensures var lines := [Container] + intro + body + concl + [Close];
      && |lines| == 2 + |intro| + |body| + |concl|
      && lines[0] == Container && lines[|lines| - 1] == Close
      && (|intro| >= 2 ==> lines[1] == intro[0] && lines[2] == intro[1])
      && (|concl| == 4 ==> lines[|lines| - 5] == concl[0] && lines[|lines| - 4] == concl[1])
  {
  }

  /** An introduction or conclusion block is its opening and heading lines, then two more. */
  lemma EdgeShape(ms: seq<(string, Json)>, key: string, heading: string, cls: string, quote: string -> string)
    requires cls == "introduction-section" || cls == "conclusion-section"
    requires EdgeLines(ms, key, heading, cls, quote).Ok?
    ensures var b := EdgeLines(ms, key, heading, cls, quote).value;
      && MainOpen !in b
      && (HasKey(ms, key) ==> |b| == 4 && b[0] == SectionOpen(cls) && b[1] == SectionTitle(heading))
      && (!HasKey(ms, key) ==> b == [])
  {
    if HasKey(ms, key) {
      var t := ValueText(Get(ms, key).value, quote).value;
      NotMainOpen(t);
      NotMainOpen(heading);
    }
  }

  /**
    A rendered dictionary opens with the container and closes it; the
    introduction block comes right after the opening and before every main
    section, and the conclusion block comes after every main section, right
    before the closing line.
  */
  lemma ObjectLayout(ms: seq<(string, Json)>, quote: string -> string)
    requires ObjectLines(ms, quote).Ok?
    ensures var lines := ObjectLines(ms, quote).value;
      && |lines| >= 2 && lines[0] == Container && lines[|lines| - 1] == Close
      && (HasKey(ms, "introduction") ==>
            |lines| >= 6 && lines[1] == SectionOpen("introduction-section") && lines[2] == SectionTitle("Introduction"))
      && (HasKey(ms, "conclusion") ==>
            |lines| >= 6 && lines[|lines| - 5] == SectionOpen("conclusion-section")
            && lines[|lines| - 4] == SectionTitle("Conclusion"))
      && (forall i :: 0 <= i < |lines| && lines[i] == MainOpen ==>
            (HasKey(ms, "introduction") ==> 4 < i) && (HasKey(ms, "conclusion") ==> i < |lines| - 5))
  {
    var intro := EdgeLines(ms, "introduction", "Introduction", "introduction-section", quote).value;
    var body := MainSectionsLines(ms, SortedSections(ms), quote).value;
    var concl := EdgeLines(ms, "conclusion", "Conclusion", "conclusion-section", quote).value;
    assert ObjectLines(ms, quote).value == [Container] + intro + body + concl + [Close];
    EdgeShape(ms, "introduction", "Introduction", "introduction-section", quote);
    EdgeShape(ms, "conclusion", "Conclusion", "conclusion-section", quote);
    FrameEdges(intro, body, concl);
    FrameLayout(intro, body, concl);
  }

  /**
    Falsy content renders as nothing, a string that is not JSON is wrapped
    verbatim in one section, and a dictionary renders as its lines joined by
    newlines, starting with the container.
  */
  lemma FormatCases(content: Json, parse: string -> Parse, quote: string -> string)
    ensures !PyTruthy(content) ==> FormatBlogContent(content, parse, quote) == Ok("")
    ensures PyTruthy(content) && content.Str? && parse(content.s).Malformed? ==>
      FormatBlogContent(content, parse, quote) == Ok("<div class='content-section'>" + content.s + "</div>")
    ensures content.Obj? && PyTruthy(content) && ObjectLines(content.members, quote).Ok? ==>
      && FormatBlogContent(content, parse, quote) == Ok(Join(ObjectLines(content.members, quote).value, "\n"))
      && StartsWith(FormatBlogContent(content, parse, quote).value, Container)
  {
    if content.Obj? && PyTruthy(content) && ObjectLines(content.members, quote).Ok? {
      ObjectLayout(content.members, quote);
      JoinFirst(ObjectLines(content.members, quote).value, "\n");
    }
  }

  // ---------------------------------------------------------------- the renderer, step by step

  lemma {:induction false} SubsectionsPrefixErr(xs: seq<(string, Json)>, i: nat, quote: string -> string)
    requires i <= |xs| && SubsectionsLines(xs[..i], quote).Err?
    ensures SubsectionsLines(xs, quote) == SubsectionsLines(xs[..i], quote)
    decreases |xs| - i
  {
    if i < |xs| {
      assert xs[..i + 1][..i] == xs[..i];
      SubsectionsPrefixErr(xs, i + 1, quote);
    } else {
      assert xs[..i] == xs;
    }
  }

  lemma {:induction false} MainSectionsPrefixErr(ms: seq<(string, Json)>, xs: seq<(string, Json)>, i: nat,
                                                 quote: string -> string)
    requires i <= |xs| && MainSectionsLines(ms, xs[..i], quote).Err?
    ensures MainSectionsLines(ms, xs, quote) == MainSectionsLines(ms, xs[..i], quote)
    decreases |xs| - i
  {
    if i < |xs| {
      assert xs[..i + 1][..i] == xs[..i];
      MainSectionsPrefixErr(ms, xs, i + 1, quote);
    } else {
      assert xs[..i] == xs;
    }
  }

  /** The `for h3_key, h3_value in h3_sections` loop. */
  method RenderSubsections(subs: seq<(string, Json)>, quote: string -> string)
    returns (r: Result<seq<string>, PyError>)
    ensures r == SubsectionsLines(subs, quote)
  {
    var html: seq<string> := [];
    var i := 0;
    while i < |subs|
      invariant 0 <= i <= |subs|
      invariant SubsectionsLines(subs[..i], quote) == Ok(html)
    {
      var h3 := subs[i];
      assert subs[..i + 1][..i] == subs[..i];
      var block: seq<string>;
      if h3.1.Obj? {
        var c := Get(h3.1.members, "content");
        if c.None? {
          SubsectionsPrefixErr(subs, i + 1, quote);
          return Err(KeyError("content"));
        }
        block := [SubOpen, SubTitle(PyStr(c.value, quote)), SubContent(PyStr(c.value, quote)), Close];
      } else {
        block := [SubOpen, SubTitle(PyStr(h3.1, quote)), Close];
      }
      html := html + block;
      i := i + 1;
    }
    assert subs[..|subs|] == subs;
    return Ok(html);
  }

  /** One main section: its heading, then its subsections sorted by their last number. */
  method RenderMainSection(ms: seq<(string, Json)>, e: (string, Json), quote: string -> string)
    returns (r: Result<seq<string>, PyError>)
    ensures r == MainSectionLines(ms, e, quote)
  {
    var title := ValueText(e.1, quote);
    if title.Err? {
      return Err(title.error);
    }
    var html := [MainOpen, SectionTitle(title.value)];
    var subs := WithPrefix(ms, e.0 + "_");
    if !AllNumbered(subs, SubsectionNumber) {
      return Err(ValueError);
    }
    subs := SortWith(subs, ByKey(SubsectionKey));
    var lines := RenderSubsections(subs, quote);
    if lines.Err? {
      return Err(lines.error);
    }
    html := html + lines.value + [Close];
    return Ok(html);
  }

  /** The `for h2_key, h2_value in sections` loop. */
  method RenderMainSections(ms: seq<(string, Json)>, sections: seq<(string, Json)>, quote: string -> string)
    returns (r: Result<seq<string>, PyError>)
    ensures r == MainSectionsLines(ms, sections, quote)
  {
    var html: seq<string> := [];
    var i := 0;
    while i < |sections|
      invariant 0 <= i <= |sections|
      invariant MainSectionsLines(ms, sections[..i], quote) == Ok(html)
    {
      assert sections[..i + 1][..i] == sections[..i];
      var block := RenderMainSection(ms, sections[i], quote);
      if block.Err? {
        MainSectionsPrefixErr(ms, sections, i + 1, quote);
        return Err(block.error);
      }
      html := html + block.value;
      i := i + 1;
    }
    assert sections[..|sections|] == sections;
    return Ok(html);
  }

  /** `format_blog_content`, building the `html` list as the view does. */
  method RenderBlogContent(content: Json, parse: string -> Parse, quote: string -> string)
    returns (r: Result<string, PyError>)
    ensures r == FormatBlogContent(content, parse, quote)
  {
    if !PyTruthy(content) {
      return Ok("");
    }
    var c := content;
    if content.Str? {
      var p := parse(content.s);
      if p.Malformed? {
        return Ok("<div class='content-section'>" + content.s + "</div>");
      }
      c := p.value;
    }
    if !c.Obj? {
      return Err(NonObjectError(c));
    }
    var ms := c.members;
    var html := [Container];
    var intro := EdgeLines(ms, "introduction", "Introduction", "introduction-section", quote);
    if intro.Err? {
      return Err(intro.error);
    }
    html := html + intro.value;
    var sections := WithPrefix(ms, "H2_");
    if !AllNumbered(sections, SectionNumber) {
      return Err(ValueError);
    }
    sections := SortWith(sections, ByKey(SectionKey));
    var body := RenderMainSections(ms, sections, quote);
    if body.Err? {
      return Err(body.error);
    }
    html := html + body.value;
    var concl := EdgeLines(ms, "conclusion", "Conclusion", "conclusion-section", quote);
    if concl.Err? {
      return Err(concl.error);
    }
    html := html + concl.value + [Close];
    return Ok(Join(html, "\n"));
  }

  // ---------------------------------------------------------------- create_blog

  /** A POST to `create_blog`: a JSON body, or form fields with the selected document ids. */
  datatype Request =
    | JsonBody(body: string)
    | Form(fields: seq<(string, string)>, selected: seq<string>)

  /** What the view reads from the request before it checks anything. */
  datatype CreateInput = CreateInput(topic: Json, tone: Json, keywords: seq<string>, ids: Json)

  /** A document the ownership query returned. */
  datatype FoundDocument = FoundDocument(id: int, title: string, file: Utils.StoredFile)

  /** The response of `create_blog`; `Created` carries what the new blog holds. */
  datatype CreateOutcome =
    | ServerError                        // the outermost handler: 500
    | BadRequest(message: string)        // a validation failure: 400
    | DocumentsError                     // "Error processing documents: ...": 400
    | GenerationFailed(error: Utils.GenError)  // 500
    | SaveFailed                         // "Error saving blog: ...": 500
    | Created(topic: Json, tone: Json, blogTitle: Json, blogOutline: Json, blogDraft: Json,
              userKeywords: seq<string>, additionalKeywords: Json, documents: set<int>)

  function HttpStatusOfCreate(o: CreateOutcome): int
  {
    match o
    case ServerError => 500
    case BadRequest(_) => 400
    case DocumentsError => 400
    case GenerationFailed(_) => 500
    case SaveFailed => 500
    case Created(_, _, _, _, _, _, _, _) => 201
  }

  const TopicRequired := "Topic is required"
  const SelectDocument := "Please select at least one document"
  const NoValidDocuments := "No valid documents selected"
  const NoReadableDocuments :=
    "Could not extract content from any of the selected documents. Please ensure the documents contain readable text."

  /** The extractor messages the view refuses as document content. */
  const Sentinels: seq<string> := [
    "Error extracting text from file",
    "No content could be extracted",
    "No text could be extracted from PDF",
    "No text could be extracted from DOCX"
  ]

  /**
    Form fields as the dictionary `request.POST.dict()` gives: each name once,
    where it first appears, bound to the value it was given last.
  */
  function FormData(fields: seq<(string, string)>): seq<(string, Json)>
  {
    if fields == [] then []
    else
      var last := fields[|fields| - 1];
      Put(FormData(fields[..|fields| - 1]), last.0, Str(last.1))
  }

  /** Field `i` is the last one named `k`. */
  predicate LastNamed(fields: seq<(string, string)>, i: int, k: string)
  {
    0 <= i < |fields| && fields[i].0 == k && forall j :: i < j < |fields| ==> fields[j].0 != k
  }

  /**
    A name is in the dictionary exactly when some field carries it, and then
    its value is the string of the last field carrying it.
  */
  lemma {:induction false} FormDataLast(fields: seq<(string, string)>, k: string)
    ensures Get(FormData(fields), k).None? <==> forall i :: 0 <= i < |fields| ==> fields[i].0 != k
    ensures Get(FormData(fields), k).Some? ==>
      exists i :: LastNamed(fields, i, k) && Get(FormData(fields), k) == Some(Str(fields[i].1))
  {
    if fields != [] {
      var n := |fields| - 1;
      var init := fields[..n];
      PutGet(FormData(init), fields[n].0, Str(fields[n].1), k);
      if fields[n].0 == k {
        assert LastNamed(fields, n, k);
      } else {
        FormDataLast(init, k);
        assert fields == init + [fields[n]];
        OtherNameLast(init, fields[n], k);
      }
    }
  }

  /** A last field with another name changes neither whether a field is named `k` nor which is last. */
  lemma OtherNameLast(init: seq<(string, string)>, last: (string, string), k: string)
    requires last.0 != k
    ensures (forall i :: 0 <= i < |init| ==> init[i].0 != k)
            <==> (forall i :: 0 <= i < |init + [last]| ==> (init + [last])[i].0 != k)
    ensures forall i :: LastNamed(init, i, k) ==> LastNamed(init + [last], i, k)
  {
    var fields := init + [last];
    if forall i :: 0 <= i < |init| ==> init[i].0 != k {
      forall i | 0 <= i < |fields| ensures fields[i].0 != k {
        if i < |init| { assert fields[i] == init[i]; }
      }
    } else {
      var i :| 0 <= i < |init| && init[i].0 == k;
      assert fields[i] == init[i];
    }
  }

  /** `data.get('user_keywords', '').split(',')`, which only a string survives. */
  function ReadKeywords(ms: seq<(string, Json)>): Option<seq<string>>
  {
    match GetOr(ms, "user_keywords", Str(""))
    case Str(s) => Some(KeywordList(s))
    case _ => None
  }

  /** `json.loads(data.get('document_ids', '[]'))`: a missing key reads as the empty list. */
  function ReadIds(ms: seq<(string, Json)>, parse: string -> Parse): Option<Json>
  {
    match Get(ms, "document_ids")
    case None => Some(Arr([]))
    case Some(Str(s)) => (match parse(s) case Malformed => None case Parsed(v) => Some(v))
    case Some(_) => None
  }

  /** The reads at the top of the POST branch; `None` when one of them raises. */
  function ReadCreate(req: Request, parse: string -> Parse): Option<CreateInput>
  {
    match req
    case JsonBody(body) =>
      (match parse(body)
       case Malformed => None
       case Parsed(v) =>
         if !v.Obj? then None
         else
           match ReadKeywords(v.members)
           case None => None
           case Some(kw) =>
             match ReadIds(v.members, parse)
             case None => None
             case Some(ids) =>
               Some(CreateInput(GetOr(v.members, "topic", Null), GetOr(v.members, "tone", Str("professional")), kw, ids)))
    case Form(fields, selected) =>
      var ms := FormData(fields);
      match ReadKeywords(ms)
      case None => None
      case Some(kw) =>
        Some(CreateInput(GetOr(ms, "topic", Null), GetOr(ms, "tone", Str("professional")), kw,
                         Arr(Utils.AsStrings(selected))))
  }

  /** A document's title with what `extract_text_from_file` gave for it. */
  type Extraction = (string, Result<string, Utils.ExtractError>)

  /** Extraction of every returned document, in query order. */
  function Extracted(docs: seq<FoundDocument>): (r: seq<Extraction>)
    ensures |r| == |docs|
  {
    if docs == [] then []
    else
      var last := docs[|docs| - 1];
      Extracted(docs[..|docs| - 1]) + [(last.title, Utils.ExtractText(last.file))]
  }

  /** An extraction whose text is kept: it succeeded with a real text. */
  predicate Usable(x: Extraction)
  {
    x.1.Ok? && x.1.value != "" && x.1.value !in Sentinels
  }

  /** The piece a kept document contributes to the prompt. */
  function Part(x: Extraction): string
    requires Usable(x)
  {
    "\n\nDocument: " + x.0 + "\n" + x.1.value
  }

  /** The pieces of the usable documents, in query order. */
  function KeptParts(xs: seq<Extraction>): seq<string>
  {
    if xs == [] then []
    else
      var last := xs[|xs| - 1];
      KeptParts(xs[..|xs| - 1]) + (if Usable(last) then [Part(last)] else [])
  }

  /**
    `result.get('keywords', {}).get('additional_keywords', [])` and the other
    reads that build the new blog; a result of the wrong shape makes them
    raise, and a `None` for a column declared without `null=True` makes
    `Blog.objects.create` or `blog.save()` raise.
  */
  function CreatedFrom(inp: CreateInput, result: Json, docs: seq<FoundDocument>): CreateOutcome
  {
    if !result.Obj? then SaveFailed
    else
      var kw := GetOr(result.members, "keywords", Obj([]));
      if !kw.Obj? then SaveFailed
      else
        var title := GetOr(result.members, "blog_title", inp.topic);
        var extra := GetOr(kw.members, "additional_keywords", Arr([]));
        if !Models.Storable(title, inp.topic, inp.tone, Arr(Utils.AsStrings(inp.keywords)), extra) then SaveFailed
        else
          Created(inp.topic, inp.tone, title,
                  GetOr(result.members, "blog_outline", Str("")),
                  GetOr(result.members, "blog_draft", Str("")),
                  inp.keywords, extra,
                  set d | d in docs :: d.id)
  }

  /** What happens once the query has returned `docs`. */
  function FromDocuments(inp: CreateInput, docs: seq<FoundDocument>, parse: string -> Parse,
                         reply: Utils.ApiOutcome): CreateOutcome
  {
    if docs == [] then BadRequest(NoValidDocuments)
    else if KeptParts(Extracted(docs)) == [] then BadRequest(NoReadableDocuments)
    else
      match Utils.Generate(inp.topic, Arr(Utils.AsStrings(inp.keywords)), reply, parse)
      case Err(e) => GenerationFailed(e)
      case Ok(result) => CreatedFrom(inp, result, docs)
  }

  /** The two field checks, then the query. */
  function Checked(inp: CreateInput, parse: string -> Parse, found: Option<seq<FoundDocument>>,
                   reply: Utils.ApiOutcome): CreateOutcome
  {
    if !PyTruthy(inp.topic) then BadRequest(TopicRequired)
    else if !PyTruthy(inp.ids) then BadRequest(SelectDocument)
    else
      match found
      case None => DocumentsError
      case Some(docs) => FromDocuments(inp, docs, parse, reply)
  }

  /**
    The POST branch of `create_blog`. `found` is what the ownership query on
    the ids returns (`None` when it raises) and `reply` what the model API answers.
  */
  function CreateBlogOutcome(req: Request, parse: string -> Parse, found: Option<seq<FoundDocument>>,
                             reply: Utils.ApiOutcome): CreateOutcome
  {
    match ReadCreate(req, parse)
    case None => ServerError
    case Some(inp) => Checked(inp, parse, found, reply)
  }

  // ---------------------------------------------------------------- properties of create_blog

  /** A document's piece is kept exactly when its extraction is usable. */
  lemma {:induction false} KeptPartsExactly(xs: seq<Extraction>)
    ensures forall x :: x in xs && Usable(x) ==> Part(x) in KeptParts(xs)
    ensures forall p :: p in KeptParts(xs) ==> exists x :: x in xs && Usable(x) && p == Part(x)
    ensures |KeptParts(xs)| <= |xs|
  {
    if xs != [] {
      var init := xs[..|xs| - 1];
      var last := xs[|xs| - 1];
      KeptPartsExactly(init);
      assert xs == init + [last];
      forall x | x in xs && Usable(x) ensures Part(x) in KeptParts(xs) {
        if x in init {
          assert Part(x) in KeptParts(init);
        }
      }
      forall p | p in KeptParts(xs) ensures exists x :: x in xs && Usable(x) && p == Part(x) {
        if p in KeptParts(init) {
          var x :| x in init && Usable(x) && p == Part(x);
          assert x in xs;
        } else {
          assert Usable(last) && p == Part(last);
        }
      }
    }
  }

  /** Nothing is kept exactly when no extraction is usable. */
  lemma KeptPartsEmpty(xs: seq<Extraction>)
    ensures KeptParts(xs) == [] <==> forall x :: x in xs ==> !Usable(x)
  {
    KeptPartsExactly(xs);
    if KeptParts(xs) != [] {
      assert KeptParts(xs)[0] in KeptParts(xs);
      var x :| x in xs && Usable(x) && KeptParts(xs)[0] == Part(x);
    }
  }

  /** A sentinel text, or an empty one, contributes nothing. */
  lemma SentinelSkipped(xs: seq<Extraction>, title: string, text: string)
    requires text == "" || text in Sentinels
    ensures KeptParts(xs + [(title, Ok(text))]) == KeptParts(xs)
  {
    assert (xs + [(title, Ok(text))])[..|xs|] == xs;
  }

  /**
    The checks run in order: a missing topic wins over a missing selection,
    which wins over everything the query and the generation would do.
  */
  lemma CreateChecksInOrder(req: Request, parse: string -> Parse, found: Option<seq<FoundDocument>>,
                            reply: Utils.ApiOutcome)
    requires ReadCreate(req, parse).Some?
    ensures var inp := ReadCreate(req, parse).value;
      var o := CreateBlogOutcome(req, parse, found, reply);
      && (!PyTruthy(inp.topic) ==> o == BadRequest(TopicRequired))
      && (PyTruthy(inp.topic) && !PyTruthy(inp.ids) ==> o == BadRequest(SelectDocument))
      && (PyTruthy(inp.topic) && PyTruthy(inp.ids) && found == Some([]) ==> o == BadRequest(NoValidDocuments))
      && (PyTruthy(inp.topic) && PyTruthy(inp.ids) && found.None? ==> o == DocumentsError)
  {
  }

  /** When no selected document yields usable text the view answers 400 and never calls the model. */
  lemma NoReadableDocument(req: Request, parse: string -> Parse, docs: seq<FoundDocument>, reply: Utils.ApiOutcome)
    requires ReadCreate(req, parse).Some?
    requires PyTruthy(ReadCreate(req, parse).value.topic) && PyTruthy(ReadCreate(req, parse).value.ids)
    requires docs != [] && forall x :: x in Extracted(docs) ==> !Usable(x)
    ensures CreateBlogOutcome(req, parse, Some(docs), reply) == BadRequest(NoReadableDocuments)
  {
    KeptPartsEmpty(Extracted(docs));
  }

  /**
    A result of the shape generation guarantees builds a blog from its entries
    unless the topic, the tone, the title or the additional keywords is `null`,
    which the database refuses.
  */
  lemma CreatedFromShape(inp: CreateInput, result: Json, docs: seq<FoundDocument>)
    requires result.Obj? && Get(result.members, "keywords").Some? && Get(result.members, "keywords").value.Obj?
    requires HasKey(result.members, "blog_title") && HasKey(result.members, "blog_outline")
    requires HasKey(result.members, "blog_draft")
    requires HasKey(Get(result.members, "keywords").value.members, "additional_keywords")
    ensures var o := CreatedFrom(inp, result, docs);
      var extra := Get(Get(result.members, "keywords").value.members, "additional_keywords").value;
      && (o.Created? <==> inp.topic != Null && inp.tone != Null
                          && Get(result.members, "blog_title").value != Null && extra != Null)
      && (!o.Created? ==> o == SaveFailed)
    ensures var o := CreatedFrom(inp, result, docs);
      o.Created? ==>
      && o.topic == inp.topic && o.tone == inp.tone && o.userKeywords == inp.keywords
      && o.additionalKeywords == Get(Get(result.members, "keywords").value.members, "additional_keywords").value
      && o.blogTitle == Get(result.members, "blog_title").value
      && o.blogOutline == Get(result.members, "blog_outline").value
      && o.blogDraft == Get(result.members, "blog_draft").value
      && o.documents == set d | d in docs :: d.id
  {
  }

  /**
    After a successful generation the outcome is built from its result: a
    blog exactly when the tone, the title and the additional keywords are not
    `null`, and the failed save otherwise; the parsed keywords are
    keyword-shaped.
  */
  lemma CreatedBlog(req: Request, parse: string -> Parse, docs: seq<FoundDocument>, reply: Utils.ApiOutcome)
    requires ReadCreate(req, parse).Some?
    requires PyTruthy(ReadCreate(req, parse).value.topic) && PyTruthy(ReadCreate(req, parse).value.ids)
    requires docs != [] && exists x :: x in Extracted(docs) && Usable(x)
    requires Utils.Generate(ReadCreate(req, parse).value.topic,
                            Arr(Utils.AsStrings(ReadCreate(req, parse).value.keywords)), reply, parse).Ok?
    ensures var inp := ReadCreate(req, parse).value;
      var result := Utils.Generate(inp.topic, Arr(Utils.AsStrings(inp.keywords)), reply, parse).value;
      CreateBlogOutcome(req, parse, Some(docs), reply) == CreatedFrom(inp, result, docs)
    ensures var inp := ReadCreate(req, parse).value;
      var result := Utils.Generate(inp.topic, Arr(Utils.AsStrings(inp.keywords)), reply, parse).value;
      var o := CreateBlogOutcome(req, parse, Some(docs), reply);
      && result.Obj? && HasKey(result.members, "blog_title")
      && Get(result.members, "keywords").Some? && Get(result.members, "keywords").value.Obj?
      && HasKey(Get(result.members, "keywords").value.members, "additional_keywords")
      && (o.Created? <==>
          && inp.tone != Null && Get(result.members, "blog_title").value != Null
          && Get(Get(result.members, "keywords").value.members, "additional_keywords").value != Null)
      && (!o.Created? ==> o == SaveFailed)
    ensures var o := CreateBlogOutcome(req, parse, Some(docs), reply);
      o.Created? ==> forall i :: 0 <= i < |o.userKeywords| ==> IsKeyword(o.userKeywords[i])
  {
    var inp := ReadCreate(req, parse).value;
    var result := Utils.Generate(inp.topic, Arr(Utils.AsStrings(inp.keywords)), reply, parse).value;
    OutcomeOfDocuments(req, parse, docs, reply);
    KeptPartsEmpty(Extracted(docs));
    FromDocumentsGenerated(inp, docs, parse, reply);
    assert CreateBlogOutcome(req, parse, Some(docs), reply) == CreatedFrom(inp, result, docs);
    GeneratedCreates(inp, docs, parse, reply);
    ReadKeywordsShape(req, parse);
  }

  /** Past the two field checks, the outcome is decided by the documents found. */
  lemma OutcomeOfDocuments(req: Request, parse: string -> Parse, docs: seq<FoundDocument>, reply: Utils.ApiOutcome)
    requires ReadCreate(req, parse).Some?
    requires PyTruthy(ReadCreate(req, parse).value.topic) && PyTruthy(ReadCreate(req, parse).value.ids)
    ensures CreateBlogOutcome(req, parse, Some(docs), reply) == FromDocuments(ReadCreate(req, parse).value, docs, parse, reply)
  {
  }

  /** With some text kept, the outcome is built from what generation returned. */
  lemma FromDocumentsGenerated(inp: CreateInput, docs: seq<FoundDocument>, parse: string -> Parse, reply: Utils.ApiOutcome)
    requires docs != [] && KeptParts(Extracted(docs)) != []
    requires Utils.Generate(inp.topic, Arr(Utils.AsStrings(inp.keywords)), reply, parse).Ok?
    ensures FromDocuments(inp, docs, parse, reply) ==
      CreatedFrom(inp, Utils.Generate(inp.topic, Arr(Utils.AsStrings(inp.keywords)), reply, parse).value, docs)
  {
  }

  /**
    What generation returns always has the entries `CreatedFrom` reads, so
    only a `null` saved value stops the blog.
  */
  lemma GeneratedCreates(inp: CreateInput, docs: seq<FoundDocument>, parse: string -> Parse, reply: Utils.ApiOutcome)
    requires Utils.Generate(inp.topic, Arr(Utils.AsStrings(inp.keywords)), reply, parse).Ok?
    ensures var result := Utils.Generate(inp.topic, Arr(Utils.AsStrings(inp.keywords)), reply, parse).value;
      && result.Obj? && HasKey(result.members, "blog_title")
      && Get(result.members, "keywords").Some? && Get(result.members, "keywords").value.Obj?
      && HasKey(Get(result.members, "keywords").value.members, "additional_keywords")
    ensures var result := Utils.Generate(inp.topic, Arr(Utils.AsStrings(inp.keywords)), reply, parse).value;
      var o := CreatedFrom(inp, result, docs);
      && (o.Created? <==>
          && inp.topic != Null && inp.tone != Null && Get(result.members, "blog_title").value != Null
          && Get(Get(result.members, "keywords").value.members, "additional_keywords").value != Null)
      && (!o.Created? ==> o == SaveFailed)
      && (o.Created? ==> o.userKeywords == inp.keywords)
  {
    var result := Utils.Generate(inp.topic, Arr(Utils.AsStrings(inp.keywords)), reply, parse).value;
    Utils.GenerateResultShape(inp.topic, Arr(Utils.AsStrings(inp.keywords)), reply, parse);
    assert "blog_title" in Utils.RequiredKeys && "blog_outline" in Utils.RequiredKeys;
    assert "blog_draft" in Utils.RequiredKeys;
    CreatedFromShape(inp, result, docs);
  }

  /** A blog built from a result holds the input's topic and tone and only values its columns accept. */
  lemma CreatedStorable(inp: CreateInput, result: Json, docs: seq<FoundDocument>)
    requires CreatedFrom(inp, result, docs).Created?
    ensures var o := CreatedFrom(inp, result, docs);
      && o.topic == inp.topic && o.tone == inp.tone
      && Models.Storable(o.blogTitle, o.topic, o.tone, Arr(Utils.AsStrings(o.userKeywords)), o.additionalKeywords)
  {
  }

  /**
    A created blog carries the request's topic, which passed the truthiness
    check, and only values its columns accept; so it never displays blank.
  */
  lemma CreatedTopicTruthy(req: Request, parse: string -> Parse, found: Option<seq<FoundDocument>>,
                           reply: Utils.ApiOutcome)
    requires CreateBlogOutcome(req, parse, found, reply).Created?
    ensures ReadCreate(req, parse).Some?
    ensures var o := CreateBlogOutcome(req, parse, found, reply);
      && o.topic == ReadCreate(req, parse).value.topic && o.tone == ReadCreate(req, parse).value.tone
      && PyTruthy(o.topic)
      && Models.Storable(o.blogTitle, o.topic, o.tone, Arr(Utils.AsStrings(o.userKeywords)), o.additionalKeywords)
  {
    assert ReadCreate(req, parse).Some?;
    var inp := ReadCreate(req, parse).value;
    assert CreateBlogOutcome(req, parse, found, reply) == Checked(inp, parse, found, reply);
    assert found.Some?;
    var docs := found.value;
    assert Checked(inp, parse, found, reply) == FromDocuments(inp, docs, parse, reply);
    var g := Utils.Generate(inp.topic, Arr(Utils.AsStrings(inp.keywords)), reply, parse);
    assert g.Ok?;
    assert FromDocuments(inp, docs, parse, reply) == CreatedFrom(inp, g.value, docs);
    CreatedStorable(inp, g.value, docs);
  }

  /** The keywords read from a request are keyword-shaped whichever way they came. */
  lemma ReadKeywordsShape(req: Request, parse: string -> Parse)
    requires ReadCreate(req, parse).Some?
    ensures forall i :: 0 <= i < |ReadCreate(req, parse).value.keywords| ==>
      IsKeyword(ReadCreate(req, parse).value.keywords[i])
  {
    var ms := if req.JsonBody? then parse(req.body).value.members else FormData(req.fields);
    var s := GetOr(ms, "user_keywords", Str("")).s;
    KeywordListShape(s);
  }

  /**
    A form is always read: its fields are strings, so the keywords split,
    and its ids are the selected ones.
  */
  lemma ReadForm(fields: seq<(string, string)>, selected: seq<string>, parse: string -> Parse)
    ensures ReadCreate(Form(fields, selected), parse).Some?
    ensures var inp := ReadCreate(Form(fields, selected), parse).value;
      && inp.ids == Arr(Utils.AsStrings(selected))
      && inp.topic == GetOr(FormData(fields), "topic", Null)
      && inp.keywords == KeywordList(GetOr(FormData(fields), "user_keywords", Str("")).s)
  {
    FormDataLast(fields, "user_keywords");
  }

  /** A form with nothing selected is refused with the selection message once a topic is given. */
  lemma FormSelectionChecked(fields: seq<(string, string)>, parse: string -> Parse, found: Option<seq<FoundDocument>>,
                             reply: Utils.ApiOutcome)
    requires PyTruthy(GetOr(FormData(fields), "topic", Null))
    ensures CreateBlogOutcome(Form(fields, []), parse, found, reply) == BadRequest(SelectDocument)
  {
    ReadForm(fields, [], parse);
    var inp := ReadCreate(Form(fields, []), parse).value;
    assert Utils.AsStrings([]) == [];
    assert Checked(inp, parse, found, reply) == BadRequest(SelectDocument);
  }

  // ---------------------------------------------------------------- create_blog, step by step

  /** One more document: its piece is appended when its extraction is usable. */
  lemma KeptPartsStep(docs: seq<FoundDocument>, i: nat)
    requires i < |docs|
    ensures var x := (docs[i].title, Utils.ExtractText(docs[i].file));
      KeptParts(Extracted(docs[..i + 1])) == KeptParts(Extracted(docs[..i])) + (if Usable(x) then [Part(x)] else [])
  {
    var x := (docs[i].title, Utils.ExtractText(docs[i].file));
    ExtractedSnoc(docs, i);
    KeptPartsSnoc(Extracted(docs[..i]), x);
  }

  lemma ExtractedSnoc(docs: seq<FoundDocument>, i: nat)
    requires i < |docs|
    ensures Extracted(docs[..i + 1]) == Extracted(docs[..i]) + [(docs[i].title, Utils.ExtractText(docs[i].file))]
  {
    assert docs[..i + 1][..i] == docs[..i];
  }

  lemma KeptPartsSnoc(xs: seq<Extraction>, x: Extraction)
    ensures KeptParts(xs + [x]) == KeptParts(xs) + (if Usable(x) then [Part(x)] else [])
  {
    assert (xs + [x])[..|xs|] == xs;
  }

  /** The `for doc in documents` loop: the kept pieces and `successful_extractions`. */
  method CollectDocuments(docs: seq<FoundDocument>) returns (parts: seq<string>, successes: nat)
    ensures parts == KeptParts(Extracted(docs))
    ensures successes == |parts|
  {
    parts := [];
    successes := 0;
    var i := 0;
    while i < |docs|
      invariant 0 <= i <= |docs|
      invariant parts == KeptParts(Extracted(docs[..i]))
      invariant successes == |parts|
    {
      var doc := docs[i];
      var content := Utils.ExtractText(doc.file);
      var x := (doc.title, content);
      KeptPartsStep(docs, i);
      if Usable(x) {
        parts := parts + [Part(x)];
        successes := successes + 1;
      }
      i := i + 1;
    }
    assert docs[..|docs|] == docs;
  }

  /** The POST branch of `create_blog`, creating the blog when everything succeeds. */
  method CreateBlog(userId: int, req: Request, parse: string -> Parse, found: Option<seq<FoundDocument>>,
                    reply: Utils.ApiOutcome)
    returns (outcome: CreateOutcome, blog: Models.Blog?)
    ensures outcome == CreateBlogOutcome(req, parse, found, reply)
    ensures blog != null <==> outcome.Created?
    ensures blog != null ==>
      && fresh(blog) && blog.userId == userId && blog.status == "draft"
      && blog.topic == outcome.topic && blog.tone == outcome.tone
      && blog.blogTitle == outcome.blogTitle && blog.blogOutline == outcome.blogOutline
      && blog.blogDraft == outcome.blogDraft
      && blog.targetKeywords == Arr(Utils.AsStrings(outcome.userKeywords))
      && blog.additionalKeywords == outcome.additionalKeywords
      && blog.referenceDocuments == outcome.documents
    ensures blog != null ==> blog.Saveable() && PyTruthy(blog.Display())
  {
    blog := null;
    var input := ReadCreate(req, parse);
    if input.None? {
      return ServerError, null;
    }
    var inp := input.value;
    if !PyTruthy(inp.topic) {
      return BadRequest(TopicRequired), null;
    }
    if !PyTruthy(inp.ids) {
      return BadRequest(SelectDocument), null;
    }
    if found.None? {
      return DocumentsError, null;
    }
    var docs := found.value;
    if docs == [] {
      return BadRequest(NoValidDocuments), null;
    }
    var parts, successes := CollectDocuments(docs);
    if successes == 0 {
      return BadRequest(NoReadableDocuments), null;
    }
    var documentsContent := Join(parts, "\n\n");
    var generated := Utils.GenerateBlogContent(inp.topic, inp.tone, Arr(Utils.AsStrings(inp.keywords)),
                                               documentsContent, reply, parse);
    if generated.Err? {
      return GenerationFailed(generated.error), null;
    }
    outcome := CreatedFrom(inp, generated.value, docs);
    if !outcome.Created? {
      return outcome, null;
    }
    CreatedStorable(inp, generated.value, docs);
    blog := NewBlog(userId, outcome);
  }

  /** `Blog.objects.create(...)`, then the generated texts and `reference_documents.set(...)`. */
  method NewBlog(userId: int, o: CreateOutcome) returns (blog: Models.Blog)
    requires o.Created?
    ensures fresh(blog) && blog.userId == userId && blog.status == "draft"
    ensures blog.topic == o.topic && blog.tone == o.tone
    ensures blog.blogTitle == o.blogTitle && blog.blogOutline == o.blogOutline && blog.blogDraft == o.blogDraft
    ensures blog.targetKeywords == Arr(Utils.AsStrings(o.userKeywords))
    ensures blog.additionalKeywords == o.additionalKeywords
    ensures blog.referenceDocuments == o.documents
  {
    blog := new Models.Blog(userId, o.topic);
    blog.tone := o.tone;
    blog.targetKeywords := Arr(Utils.AsStrings(o.userKeywords));
    blog.additionalKeywords := o.additionalKeywords;
    blog.blogTitle := o.blogTitle;
    blog.blogOutline := o.blogOutline;
    blog.blogDraft := o.blogDraft;
    blog.referenceDocuments := o.documents;
  }

  // ---------------------------------------------------------------- update_blog

  /** The response of `update_blog`. */
  datatype UpdateOutcome = Updated | NotFound | InvalidJson | UpdateFailed

  function HttpStatusOfUpdate(o: UpdateOutcome): int
  {
    match o
    case Updated => 200
    case NotFound => 404
    case InvalidJson => 400
    case UpdateFailed => 500
  }

  /** The three editable fields after the update: a supplied key replaces, an absent one keeps. */
  function UpdatedFields(ms: seq<(string, Json)>, title: Json, outline: Json, draft: Json): (Json, Json, Json)
  {
    (GetOr(ms, "blog_title", title), GetOr(ms, "blog_outline", outline), GetOr(ms, "blog_draft", draft))
  }

  /** Exactly the supplied fields change, and to the supplied values. */
  lemma UpdateOnlySupplied(ms: seq<(string, Json)>, title: Json, outline: Json, draft: Json)
    ensures var r := UpdatedFields(ms, title, outline, draft);
      && (HasKey(ms, "blog_title") ==> r.0 == Get(ms, "blog_title").value)
      && (HasKey(ms, "blog_outline") ==> r.1 == Get(ms, "blog_outline").value)
      && (HasKey(ms, "blog_draft") ==> r.2 == Get(ms, "blog_draft").value)
      && (!HasKey(ms, "blog_title") ==> r.0 == title)
      && (!HasKey(ms, "blog_outline") ==> r.1 == outline)
      && (!HasKey(ms, "blog_draft") ==> r.2 == draft)
  {
  }

  /** What a body supplying all three fields binds them to. */
  lemma AllSupplied(title: Json, outline: Json, draft: Json)
    ensures var ms := [("blog_title", title), ("blog_outline", outline), ("blog_draft", draft)];
      Get(ms, "blog_title") == Some(title) && Get(ms, "blog_outline") == Some(outline)
      && Get(ms, "blog_draft") == Some(draft)
  {
    var ms := [("blog_title", title), ("blog_outline", outline), ("blog_draft", draft)];
    assert ms[1..][0] == ("blog_outline", outline);
    assert ms[2..][0] == ("blog_draft", draft);
    assert Get(ms[1..], "blog_draft") == Get(ms[2..], "blog_draft") == Some(draft);
  }

  /**
    A body supplying all three fields sets them to what it supplies, whatever
    the blog held, so supplying the blog's own values leaves it as it was; an
    empty body changes nothing.
  */
  lemma UpdateWithOwnValues(title: Json, outline: Json, draft: Json, held: (Json, Json, Json))
    ensures UpdatedFields([("blog_title", title), ("blog_outline", outline), ("blog_draft", draft)],
                          held.0, held.1, held.2) == (title, outline, draft)
    ensures UpdatedFields([("blog_title", held.0), ("blog_outline", held.1), ("blog_draft", held.2)],
                          held.0, held.1, held.2) == held
    ensures UpdatedFields([], held.0, held.1, held.2) == held
  {
    AllSupplied(title, outline, draft);
    AllSupplied(held.0, held.1, held.2);
  }

  /**
    `update_blog`: `blog` is what the ownership lookup found (`null` when it
    raised `DoesNotExist`) and `parse` is `json.loads` of the body.
  */
  method UpdateBlog(blog: Models.Blog?, body: string, parse: string -> Parse) returns (outcome: UpdateOutcome)
    modifies blog
    ensures blog == null ==> outcome == NotFound
    ensures blog != null && parse(body).Malformed? ==> outcome == InvalidJson
    ensures blog != null && parse(body).Parsed? && !parse(body).value.Obj? ==> outcome == UpdateFailed
    ensures blog != null && parse(body).Parsed? && parse(body).value.Obj?
            && Get(parse(body).value.members, "blog_title") == Some(Null)
            ==> outcome == UpdateFailed
    ensures blog != null && old(blog.Saveable()) && parse(body).Parsed? && parse(body).value.Obj?
            && Get(parse(body).value.members, "blog_title") != Some(Null)
            ==> outcome == Updated
    ensures outcome != Updated ==> blog == null || unchanged(blog)
    ensures outcome == Updated ==> blog.Saveable()
    ensures blog != null && PyTruthy(old(blog.topic)) ==> PyTruthy(blog.Display())
    ensures outcome == Updated ==>
      && blog != null && parse(body).Parsed? && parse(body).value.Obj?
      && (blog.blogTitle, blog.blogOutline, blog.blogDraft)
         == UpdatedFields(parse(body).value.members, old(blog.blogTitle), old(blog.blogOutline), old(blog.blogDraft))
      && blog.userId == old(blog.userId) && blog.topic == old(blog.topic) && blog.tone == old(blog.tone)
      && blog.targetKeywords == old(blog.targetKeywords)
      && blog.additionalKeywords == old(blog.additionalKeywords)
      && blog.status == old(blog.status) && blog.referenceDocuments == old(blog.referenceDocuments)
  {
    if blog == null {
      return NotFound;
    }
    var data := parse(body);
    if data.Malformed? {
      return InvalidJson;
    }
    if !data.value.Obj? {
      return UpdateFailed;
    }
    var ms := data.value.members;
    var title := GetOr(ms, "blog_title", blog.blogTitle);
    var outline := GetOr(ms, "blog_outline", blog.blogOutline);
    var draft := GetOr(ms, "blog_draft", blog.blogDraft);
    if !Models.Storable(title, blog.topic, blog.tone, blog.targetKeywords, blog.additionalKeywords) {
      // `blog.save()` raises `IntegrityError`; the stored row keeps its values
      return UpdateFailed;
    }
    blog.blogTitle, blog.blogOutline, blog.blogDraft := title, outline, draft;
    return Updated;
  }
}
