/**
  String operations of Python and JavaScript that the application's code calls,
  stated on `seq<char>`.
*/
module Text {
  import opened Wrappers

  // ---------------------------------------------------------------- split / join

  /**
    `s.split(sep)` for a one-character separator; Python's `str.split` and
    JavaScript's `String.prototype.split` agree here: `n` separators give
    `n + 1` pieces, and the empty string gives `[""]`.
  */
  function Split(s: string, sep: char): (parts: seq<string>)
    ensures |parts| >= 1
    decreases |s|
  {
    if s == [] then [""]
    else
      var rest := Split(s[1..], sep);
      if s[0] == sep then [""] + rest else [[s[0]] + rest[0]] + rest[1..]
  }

  /** `sep.join(parts)` in Python, `parts.join(sep)` in JavaScript. */
  function Join(parts: seq<string>, sep: string): string
  {
    if parts == [] then ""
    else if |parts| == 1 then parts[0]
    else parts[0] + sep + Join(parts[1..], sep)
  }

  /** The last piece, `s.split(sep)[-1]`. */
  function LastPiece(s: string, sep: char): string
  {
    var ps := Split(s, sep);
    ps[|ps| - 1]
  }

  /** The index of the last `c` in `s`, or -1 (`str.rfind`, `lastIndexOf`). */
  function LastIndexOf(s: string, c: char): (r: int)
    ensures -1 <= r < |s|
    ensures r >= 0 ==> s[r] == c
  {
    if s == [] then -1
    else if s[|s| - 1] == c then |s| - 1
    else LastIndexOf(s[..|s| - 1], c)
  }

  /** No `c` follows the last one. */
  lemma {:induction false} LastIndexOfIsLast(s: string, c: char)
    ensures forall k :: LastIndexOf(s, c) < k < |s| ==> s[k] != c
  {
    if s != [] && s[|s| - 1] != c {
      LastIndexOfIsLast(s[..|s| - 1], c);
      assert forall k :: 0 <= k < |s| - 1 ==> s[k] == s[..|s| - 1][k];
    }
  }

  /** A string without the separator is its own single piece. */
  lemma SplitFree(s: string, sep: char)
    requires sep !in s
    ensures Split(s, sep) == [s]
  {
    SplitPrefix(s, "", sep);
    assert s + "" == s;
  }

  /** A string holding the separator splits into at least two pieces. */
  lemma {:induction false} SplitSeveral(s: string, sep: char)
    requires sep in s
    ensures |Split(s, sep)| > 1
    decreases |s|
  {
    if s[0] != sep {
      assert sep in s[1..];
      SplitSeveral(s[1..], sep);
    }
  }

  /** A string without `c` has no last `c`. */
  lemma {:induction false} LastIndexOfAbsent(s: string, c: char)
    requires c !in s
    ensures LastIndexOf(s, c) == -1
  {
    if s != [] {
      assert c !in s[..|s| - 1];
      LastIndexOfAbsent(s[..|s| - 1], c);
    }
  }

  /** The last occurrence in `a + b` is the last one in `b` when there is one, else the last one in `a`. */
  lemma {:induction false} LastIndexOfAppend(a: string, b: string, c: char)
    ensures LastIndexOf(a + b, c) ==
      if LastIndexOf(b, c) >= 0 then |a| + LastIndexOf(b, c) else LastIndexOf(a, c)
    decreases |b|
  {
    if b == [] {
      assert a + b == a;
    } else if b[|b| - 1] != c {
      assert (a + b)[..|a + b| - 1] == a + b[..|b| - 1];
      LastIndexOfAppend(a, b[..|b| - 1], c);
    }
  }

  /** The last occurrence in `s` seen from its tail `s[1..]`. */
  lemma LastIndexOfCons(s: string, c: char)
    requires s != []
    ensures LastIndexOf(s, c) ==
      if LastIndexOf(s[1..], c) >= 0 then LastIndexOf(s[1..], c) + 1
      else if s[0] == c then 0 else -1
  {
    var li := LastIndexOf(s[1..], c);
    var r := LastIndexOf(s, c);
    LastIndexOfIsLast(s, c);
    LastIndexOfIsLast(s[1..], c);
    if li >= 0 {
      assert s[li + 1] == c;
      assert forall k :: li + 1 < k < |s| ==> s[k] == s[1..][k - 1];
    } else {
      assert forall k :: 0 < k < |s| ==> s[k] == s[1..][k - 1];
    }
  }

  /** `s.split(sep)[-1]` is the text after the last separator, or all of `s` when there is none. */
  lemma {:induction false} LastPieceAfterLast(s: string, sep: char)
    ensures LastPiece(s, sep) == s[LastIndexOf(s, sep) + 1..]
    decreases |s|
  {
    if s != [] {
      LastPieceAfterLast(s[1..], sep);
      LastIndexOfCons(s, sep);
      if LastIndexOf(s[1..], sep) >= 0 {
        LastPieceTailHas(s, sep);
      } else {
        LastPieceTailFree(s, sep);
      }
    }
  }

  /** The inductive step of `LastPieceAfterLast` when the tail holds a separator. */
  lemma LastPieceTailHas(s: string, sep: char)
    requires s != [] && LastIndexOf(s[1..], sep) >= 0
    requires LastPiece(s[1..], sep) == s[1..][LastIndexOf(s[1..], sep) + 1..]
    ensures LastPiece(s, sep) == s[LastIndexOf(s[1..], sep) + 2..]
  {
    var t := s[1..];
    var li := LastIndexOf(t, sep);
    SplitSeveral(t, sep);
    LastOfCons(s, sep);
    assert t[li + 1..] == s[li + 2..];
  }

  /** The inductive step of `LastPieceAfterLast` when the tail holds none. */
  lemma LastPieceTailFree(s: string, sep: char)
    requires s != [] && LastIndexOf(s[1..], sep) < 0
    ensures LastPiece(s, sep) == if s[0] == sep then s[1..] else s
  {
    var t := s[1..];
    SplitNoLast(t, sep);
    var ps := Split(s, sep);
    if s[0] == sep {
      assert |ps| == 2 && ps[1] == t;
    } else {
      assert |ps| == 1 && ps[0] == [s[0]] + t;
      assert [s[0]] + t == s;
    }
  }

  /** A string in which `LastIndexOf` finds no separator is its own single piece. */
  lemma SplitNoLast(t: string, sep: char)
    requires LastIndexOf(t, sep) < 0
    ensures Split(t, sep) == [t]
  {
    LastIndexOfIsLast(t, sep);
    assert sep !in t;
    SplitFree(t, sep);
  }

  /** When the tail splits into several pieces, the last piece of `s` is the tail's last piece. */
  lemma LastOfCons(s: string, sep: char)
    requires s != [] && |Split(s[1..], sep)| > 1
    ensures LastPiece(s, sep) == LastPiece(s[1..], sep)
  {
    var rest := Split(s[1..], sep);
    var ps := Split(s, sep);
    if s[0] == sep {
      assert ps == [""] + rest;
    } else {
      assert ps == [[s[0]] + rest[0]] + rest[1..];
      assert ps[|ps| - 1] == rest[1..][|rest| - 2];
    }
  }

  lemma {:induction false} SplitPieceFree(s: string, sep: char)
    ensures forall i :: 0 <= i < |Split(s, sep)| ==> sep !in Split(s, sep)[i]
    decreases |s|
  {
    if s != [] {
      SplitPieceFree(s[1..], sep);
    }
  }

  lemma {:induction false} SplitThenJoin(s: string, sep: char)
    ensures Join(Split(s, sep), [sep]) == s
    decreases |s|
  {
    if s != [] {
      var rest := Split(s[1..], sep);
      SplitThenJoin(s[1..], sep);
      if s[0] == sep {
        assert Split(s, sep) == [""] + rest;
        assert s == [sep] + s[1..];
      } else {
        var ps := [[s[0]] + rest[0]] + rest[1..];
        assert Split(s, sep) == ps;
        if |rest| == 1 {
          assert s == [s[0]] + rest[0];
        } else {
          assert Join(rest, [sep]) == rest[0] + [sep] + Join(rest[1..], [sep]);
          assert ps[1..] == rest[1..];
          assert s == [s[0]] + s[1..];
        }
      }
    }
  }

  /** Splitting `p + t` where `p` has no separator glues `p` to the first piece of `t`. */
  lemma {:induction false} SplitPrefix(p: string, t: string, sep: char)
    requires sep !in p
    ensures Split(p + t, sep) == [p + Split(t, sep)[0]] + Split(t, sep)[1..]
    decreases |p|
  {
    if p != [] {
      SplitPrefix(p[1..], t, sep);
      assert (p + t)[1..] == p[1..] + t;
      assert (p + t)[0] == p[0];
      assert [p[0]] + (p[1..] + Split(t, sep)[0]) == p + Split(t, sep)[0];
    } else {
      var ps := Split(t, sep);
      assert p + t == t;
      assert p + ps[0] == ps[0];
      assert [ps[0]] + ps[1..] == ps;
    }
  }

  lemma {:induction false} JoinThenSplit(parts: seq<string>, sep: char)
    requires |parts| >= 1
    requires forall i :: 0 <= i < |parts| ==> sep !in parts[i]
    ensures Split(Join(parts, [sep]), sep) == parts
  {
    if |parts| == 1 {
      SplitPrefix(parts[0], "", sep);
      assert parts[0] + "" == parts[0];
    } else {
      var u := Join(parts[1..], [sep]);
      JoinThenSplit(parts[1..], sep);
      calc {
        Split(Join(parts, [sep]), sep);
        { assert Join(parts, [sep]) == parts[0] + ([sep] + u); }
        Split(parts[0] + ([sep] + u), sep);
        { SplitPrefix(parts[0], [sep] + u, sep);
          assert ([sep] + u)[1..] == u;
          assert Split([sep] + u, sep) == [""] + Split(u, sep); }
        [parts[0] + ""] + Split(u, sep);
        { assert parts[0] + "" == parts[0]; }
        parts;
      }
    }
  }

  // ---------------------------------------------------------------- predicates on strings

  predicate StartsWith(s: string, prefix: string)
  {
    |prefix| <= |s| && s[..|prefix|] == prefix
  }

  /** A joined sequence starts with its first piece. */
  lemma {:induction false} JoinFirst(ps: seq<string>, sep: string)
    requires |ps| >= 1
    ensures StartsWith(Join(ps, sep), ps[0])
  {
    if |ps| > 1 {
      assert Join(ps, sep) == ps[0] + sep + Join(ps[1..], sep);
      assert (ps[0] + sep + Join(ps[1..], sep))[..|ps[0]|] == ps[0];
    } else {
      assert Join(ps, sep) == ps[0];
    }
  }

  predicate EndsWith(s: string, suffix: string)
  {
    |suffix| <= |s| && s[|s| - |suffix|..] == suffix
  }

  /** Two or more joined pieces end with the separator and the last piece. */
  lemma {:induction false} JoinLast(ps: seq<string>, sep: string)
    requires |ps| >= 2
    ensures Join(ps, sep) == Join(ps[..|ps| - 1], sep) + sep + ps[|ps| - 1]
  {
    if |ps| > 2 {
      JoinLast(ps[1..], sep);
      assert ps[1..][..|ps| - 2] == ps[..|ps| - 1][1..];
      assert Join(ps[..|ps| - 1], sep) == ps[0] + sep + Join(ps[..|ps| - 1][1..], sep);
    } else {
      assert Join(ps[1..], sep) == ps[1];
    }
  }

  /** A joined sequence of two or more pieces ends with the separator and its last piece. */
  lemma JoinEnds(ps: seq<string>, sep: string)
    requires |ps| >= 2
    ensures EndsWith(Join(ps, sep), sep + ps[|ps| - 1])
  {
    JoinLast(ps, sep);
    var s := Join(ps, sep);
    var front := Join(ps[..|ps| - 1], sep);
    assert s == front + (sep + ps[|ps| - 1]);
  }

  /** `s.replace(a, b)` for single characters. */
  function ReplaceChar(s: string, a: char, b: char): (r: string)
    ensures |r| == |s|
    ensures forall i :: 0 <= i < |s| ==> r[i] == if s[i] == a then b else s[i]
  {
    if s == [] then [] else [if s[0] == a then b else s[0]] + ReplaceChar(s[1..], a, b)
  }

  function LowerChar(c: char): char
  {
    if 'A' <= c <= 'Z' then (c as int + 32) as char else c
  }

  /** `s.lower()` on ASCII letters (other characters are kept). */
  function Lower(s: string): (r: string)
    ensures |r| == |s|
    ensures forall i :: 0 <= i < |s| ==> r[i] == LowerChar(s[i])
  {
    if s == [] then [] else [LowerChar(s[0])] + Lower(s[1..])
  }

  // ---------------------------------------------------------------- Python whitespace

  /** The characters for which Python's `str.isspace()` holds. */
  predicate IsPySpace(c: char)
  {
    || c == ' ' || ('\t' <= c <= '\r') || ('\U{1C}' <= c <= '\U{1F}')
    || c == '\U{85}' || c == '\U{A0}' || c == '\U{1680}'
    || ('\U{2000}' <= c <= '\U{200A}')
    || c == '\U{2028}' || c == '\U{2029}' || c == '\U{202F}' || c == '\U{205F}' || c == '\U{3000}'
  }

  predicate AllPySpace(s: string)
  {
    forall i :: 0 <= i < |s| ==> IsPySpace(s[i])
  }

  /** `s.lstrip()`. */
  function TrimLeft(s: string): (r: string)
    ensures |r| <= |s|
  {
    if s != [] && IsPySpace(s[0]) then TrimLeft(s[1..]) else s
  }

  /** `s.rstrip()`. */
  function TrimRight(s: string): (r: string)
    ensures |r| <= |s|
  {
    if s != [] && IsPySpace(s[|s| - 1]) then TrimRight(s[..|s| - 1]) else s
  }

  /** `lstrip` removes a leading run of whitespace and nothing else. */
  lemma {:induction false} TrimLeftShape(s: string)
    ensures var r := TrimLeft(s);
      && r == s[|s| - |r|..] && AllPySpace(s[..|s| - |r|])
      && (r == [] || !IsPySpace(r[0]))
  {
    if s != [] && IsPySpace(s[0]) {
      TrimLeftShape(s[1..]);
      var r := TrimLeft(s[1..]);
      assert s[..|s| - |r|] == [s[0]] + s[1..][..|s[1..]| - |r|];
    }
  }

  /** `rstrip` removes a trailing run of whitespace and nothing else. */
  lemma {:induction false} TrimRightShape(s: string)
    ensures var r := TrimRight(s);
      && r == s[..|r|] && AllPySpace(s[|r|..])
      && (r == [] || !IsPySpace(r[|r| - 1]))
  {
    if s != [] && IsPySpace(s[|s| - 1]) {
      TrimRightShape(s[..|s| - 1]);
      var r := TrimRight(s[..|s| - 1]);
      assert s[|r|..] == s[..|s| - 1][|r|..] + [s[|s| - 1]];
    }
  }

  /** `s.strip()`. */
  function Strip(s: string): string
  {
    TrimRight(TrimLeft(s))
  }

  /** A string `strip()` leaves as it is. */
  predicate Stripped(s: string)
  {
    s == [] || (!IsPySpace(s[0]) && !IsPySpace(s[|s| - 1]))
  }

  lemma StripShape(s: string)
    ensures Stripped(Strip(s))
    ensures exists i, j :: 0 <= i <= j <= |s| && Strip(s) == s[i..j] && AllPySpace(s[..i]) && AllPySpace(s[j..])
  {
    var l := TrimLeft(s);
    var r := TrimRight(l);
    TrimLeftShape(s);
    TrimRightShape(l);
    var i := |s| - |l|;
    var j := i + |r|;
    assert r == s[i..j];
    assert s[j..] == l[|r|..];
    if r != [] {
      assert r[0] == l[0];
    }
  }

  lemma {:induction false} StrippedIsFixed(s: string)
    requires Stripped(s)
    ensures Strip(s) == s
  {
  }

  lemma StripIdempotent(s: string)
    ensures Strip(Strip(s)) == Strip(s)
  {
    StripShape(s);
    StrippedIsFixed(Strip(s));
  }

  lemma StripLeadingSpace(c: char, s: string)
    requires IsPySpace(c)
    ensures Strip([c] + s) == Strip(s)
  {
    assert ([c] + s)[1..] == s;
  }

  // ---------------------------------------------------------------- words (str.split() with no argument)

  /** The longest prefix of `s` without whitespace. */
  function TakeWord(s: string): (w: string)
    ensures |w| <= |s| && w == s[..|w|]
    ensures !AllPySpace(w) || w == []
    ensures forall i :: 0 <= i < |w| ==> !IsPySpace(w[i])
    ensures |w| == |s| || IsPySpace(s[|w|])
  {
    if s == [] || IsPySpace(s[0]) then [] else [s[0]] + TakeWord(s[1..])
  }

  /** `s.split()`: the maximal runs of non-whitespace characters, in order. */
  function Words(s: string): (ws: seq<string>)
    ensures forall i :: 0 <= i < |ws| ==> ws[i] != [] && (forall j :: 0 <= j < |ws[i]| ==> !IsPySpace(ws[i][j]))
    decreases |s|
  {
    var t := TrimLeft(s);
    TrimLeftShape(s);
    if t == [] then []
    else
      var w := TakeWord(t);
      assert w != [] by { assert !IsPySpace(t[0]); }
      [w] + Words(t[|w|..])
  }

  /**
    The number of positions where a word begins: a non-whitespace character at
    the start or right after whitespace (`afterSpace` says whether the
    character before `s` was whitespace, or there was none).
  */
  function WordStarts(s: string, afterSpace: bool): nat
  {
    if s == [] then 0
    else (if afterSpace && !IsPySpace(s[0]) then 1 else 0) + WordStarts(s[1..], IsPySpace(s[0]))
  }

  lemma {:induction false} WordStartsSkipSpace(s: string, b: bool)
    requires AllPySpace(s)
    ensures WordStarts(s, b) == 0
  {
    if s != [] {
      WordStartsSkipSpace(s[1..], true);
    }
  }

  lemma {:induction false} WordStartsConcat(a: string, b: string, flag: bool)
    ensures WordStarts(a + b, flag) == WordStarts(a, flag) + WordStarts(b, if a == [] then flag else IsPySpace(a[|a| - 1]))
    decreases |a|
  {
    if a != [] {
      assert (a + b)[1..] == a[1..] + b;
      WordStartsConcat(a[1..], b, IsPySpace(a[0]));
    } else {
      assert a + b == b;
    }
  }

  lemma {:induction false} WordStartsInWord(w: string, flag: bool)
    requires forall i :: 0 <= i < |w| ==> !IsPySpace(w[i])
    requires w != []
    ensures WordStarts(w, flag) == if flag then 1 else 0
    decreases |w|
  {
    if |w| > 1 {
      WordStartsInWord(w[1..], false);
    }
  }

  lemma {:induction false} WordStartsFlagIrrelevant(s: string, b: bool)
    requires s == [] || IsPySpace(s[0])
    ensures WordStarts(s, b) == WordStarts(s, true)
  {
  }

  lemma {:induction false} WordsCount(s: string)
    ensures |Words(s)| == WordStarts(s, true)
    decreases |s|
  {
    var t := TrimLeft(s);
    TrimLeftShape(s);
    WordStartsTrimLeft(s);
    if t != [] {
      var rest := t[|TakeWord(t)|..];
      WordsCount(rest);
      WordStartsFirstWord(t);
    }
  }

  /** Leading whitespace starts no word. */
  lemma WordStartsTrimLeft(s: string)
    ensures WordStarts(s, true) == WordStarts(TrimLeft(s), true)
  {
    var t := TrimLeft(s);
    TrimLeftShape(s);
    var sp := s[..|s| - |t|];
    assert s == sp + t;
    WordStartsConcat(sp, t, true);
    WordStartsSkipSpace(sp, true);
  }

  /** A string that begins with a word starts one word there and the rest after it. */
  lemma WordStartsFirstWord(t: string)
    requires t != [] && !IsPySpace(t[0])
    ensures WordStarts(t, true) == 1 + WordStarts(t[|TakeWord(t)|..], true)
  {
    var w := TakeWord(t);
    var rest := t[|w|..];
    assert t == w + rest;
    WordStartsConcat(w, rest, true);
    WordStartsInWord(w, true);
    WordStartsFlagIrrelevant(rest, false);
  }

  // ---------------------------------------------------------------- decimal numbers

  predicate IsDigit(c: char) { '0' <= c <= '9' }

  predicate AllDigits(s: string)
  {
    forall i :: 0 <= i < |s| ==> IsDigit(s[i])
  }

  function DigitChar(d: nat): (c: char)
    requires d < 10
    ensures IsDigit(c) && c as int - '0' as int == d
  {
    (d + '0' as int) as char
  }

  /** The value of a string of decimal digits. */
  function DigitsValue(s: string): nat
    requires AllDigits(s)
  {
    if s == [] then 0 else DigitsValue(s[..|s| - 1]) * 10 + (s[|s| - 1] as int - '0' as int)
  }

  /** `str(n)` for `n >= 0`: decimal digits, no leading zero. */
  function NatString(n: nat): (s: string)
    ensures s != [] && AllDigits(s)
  {
    if n < 10 then [DigitChar(n)] else NatString(n / 10) + [DigitChar(n % 10)]
  }

  /** `str(n)` in Python and `String(n)` in JavaScript for an integer. */
  function DecimalString(n: int): string
  {
    if n < 0 then "-" + NatString(-n) else NatString(n)
  }

  lemma {:induction false} NatStringValue(n: nat)
    ensures DigitsValue(NatString(n)) == n
    ensures NatString(n)[0] != '0' || n == 0
  {
    if n >= 10 {
      NatStringValue(n / 10);
      var s := NatString(n);
      assert s[..|s| - 1] == NatString(n / 10);
    }
  }

  /**
    Python's `int(s)` (base 10) on a string without underscores: surrounding
    whitespace is ignored, one sign is allowed, then at least one ASCII digit.
  */
  function PyInt(s: string): Option<int>
  {
    var t := Strip(s);
    if t == [] then None
    else if t[0] == '+' || t[0] == '-' then
      if |t| > 1 && AllDigits(t[1..]) then
        var n: int := if t[0] == '-' then -(DigitsValue(t[1..]) as int) else DigitsValue(t[1..]);
        Some(n)
      else None
    else if AllDigits(t) then Some(DigitsValue(t))
    else None
  }

  lemma DecimalStripped(n: int)
    ensures Stripped(DecimalString(n))
  {
    var s := DecimalString(n);
    assert s[|s| - 1] == NatString(if n < 0 then -n else n)[|NatString(if n < 0 then -n else n)| - 1];
  }

  /** Printing an integer and reading it back with `int()` gives it back. */
  lemma PyIntOfDecimal(n: int)
    ensures PyInt(DecimalString(n)) == Some(n)
  {
    var t := DecimalString(n);
    DecimalStripped(n);
    StrippedIsFixed(t);
    if n < 0 {
      var m := NatString(-n);
      NatStringValue(-n);
      assert t[1..] == m;
      assert t[0] == '-' && |t| > 1;
      assert PyInt(t) == Some(-(DigitsValue(m) as int));
    } else {
      NatStringValue(n);
      assert IsDigit(t[0]);
      assert PyInt(t) == Some(DigitsValue(t));
    }
  }

  // ---------------------------------------------------------------- JavaScript parseInt and \d

  /** JavaScript's StrWhiteSpaceChar: WhiteSpace and LineTerminator. */
  predicate IsJsSpace(c: char)
  {
    || c == '\t' || c == '\n' || c == '\U{0B}' || c == '\U{0C}' || c == '\r' || c == ' '
    || c == '\U{A0}' || c == '\U{1680}' || ('\U{2000}' <= c <= '\U{200A}')
    || c == '\U{2028}' || c == '\U{2029}' || c == '\U{202F}' || c == '\U{205F}'
    || c == '\U{3000}' || c == '\U{FEFF}'
  }

  function JsTrimLeft(s: string): (r: string)
    ensures |r| <= |s|
  {
    if s != [] && IsJsSpace(s[0]) then JsTrimLeft(s[1..]) else s
  }

  function HexValue(c: char): Option<nat>
  {
    if '0' <= c <= '9' then Some(c as int - '0' as int)
    else if 'a' <= c <= 'f' then Some(c as int - 'a' as int + 10)
    else if 'A' <= c <= 'F' then Some(c as int - 'A' as int + 10)
    else None
  }

  /** The value of the longest prefix of `s` made of digits of `radix` (10 or 16). */
  function PrefixValue(s: string, radix: nat, acc: nat, seen: bool): Option<nat>
    requires radix == 10 || radix == 16
  {
    if s != [] && HexValue(s[0]).Some? && HexValue(s[0]).value < radix then
      PrefixValue(s[1..], radix, acc * radix + HexValue(s[0]).value, true)
    else if seen then Some(acc) else None
  }

  /**
    `parseInt(s)` without a radix, with `None` for NaN: leading whitespace is
    skipped, one sign is allowed, `0x`/`0X` selects hexadecimal, and the longest
    run of digits that follows is read.
  */
  function JsParseInt(s: string): Option<int>
  {
    var t := JsTrimLeft(s);
    var neg := t != [] && t[0] == '-';
    var u := if t != [] && (t[0] == '-' || t[0] == '+') then t[1..] else t;
    var v := if |u| >= 2 && u[0] == '0' && (u[1] == 'x' || u[1] == 'X')
             then PrefixValue(u[2..], 16, 0, false)
             else PrefixValue(u, 10, 0, false);
    match v
    case None => None
    case Some(x) =>
      var n: int := if neg then -(x as int) else x;
      Some(n)
  }

  lemma {:induction false} PrefixValueDigits(s: string, acc: nat, seen: bool)
    requires AllDigits(s) && (seen || s != [])
    ensures PrefixValue(s, 10, acc, seen) == Some(Pow10Shift(acc, |s|) + DigitsValue(s))
    decreases |s|
  {
    if s != [] {
      assert HexValue(s[0]) == Some(s[0] as int - '0' as int);
      PrefixValueDigits(s[1..], acc * 10 + (s[0] as int - '0' as int), true);
      DigitsValueCons(s);
      Pow10ShiftStep(acc, s[0] as int - '0' as int, |s| - 1);
    }
  }

  /** `acc * 10^k`. */
  function Pow10Shift(acc: nat, k: nat): nat
  {
    if k == 0 then acc else Pow10Shift(acc, k - 1) * 10
  }

  lemma {:induction false} Pow10ShiftStep(acc: nat, d: nat, k: nat)
    ensures Pow10Shift(acc * 10 + d, k) == Pow10Shift(acc, k + 1) + Pow10Shift(d, k)
  {
    if k > 0 {
      Pow10ShiftStep(acc, d, k - 1);
    }
  }

  lemma {:induction false} DigitsValueCons(s: string)
    requires s != [] && AllDigits(s)
    ensures DigitsValue(s) == Pow10Shift(s[0] as int - '0' as int, |s| - 1) + DigitsValue(s[1..])
    decreases |s|
  {
    if |s| > 1 {
      var init := s[..|s| - 1];
      DigitsValueCons(init);
      assert init[1..] == s[1..][..|s[1..]| - 1];
      assert init[0] == s[0];
    }
  }

  /** A run of decimal digits, as left by `/^H2_\d+$/`, is read exactly by `parseInt`. */
  lemma JsParseIntDigits(s: string)
    requires s != [] && AllDigits(s)
    ensures JsParseInt(s) == Some(DigitsValue(s))
  {
    assert IsDigit(s[0]) && !IsJsSpace(s[0]);
    assert JsTrimLeft(s) == s;
    if |s| >= 2 {
      assert IsDigit(s[1]);
    }
    PrefixValueDigits(s, 0, false);
    Pow10ShiftZero(|s|);
  }

  lemma {:induction false} Pow10ShiftZero(k: nat)
    ensures Pow10Shift(0, k) == 0
  {
    if k > 0 {
      Pow10ShiftZero(k - 1);
    }
  }

  // ---------------------------------------------------------------- comma-separated keywords

  /** The pieces each stripped, the empty ones dropped. */
  function KeepStripped(ps: seq<string>): (r: seq<string>)
    ensures |r| <= |ps|
  {
    if ps == [] then []
    else (if Strip(ps[0]) != "" then [Strip(ps[0])] else []) + KeepStripped(ps[1..])
  }

  /** `[kw.strip() for kw in s.split(',') if kw.strip()]`. */
  function KeywordList(s: string): seq<string>
  {
    KeepStripped(Split(s, ','))
  }

  /** A keyword as the parser produces it: non-empty, stripped, without a comma. */
  predicate IsKeyword(k: string)
  {
    k != "" && Stripped(k) && ',' !in k
  }

  lemma StripChars(s: string)
    ensures forall c :: c in Strip(s) ==> c in s
  {
    var l := TrimLeft(s);
    TrimLeftShape(s);
    TrimRightShape(l);
    assert forall c :: c in TrimRight(l) ==> c in l;
    assert forall c :: c in l ==> c in s;
  }

  lemma {:induction false} KeepStrippedShape(ps: seq<string>)
    requires forall i :: 0 <= i < |ps| ==> ',' !in ps[i]
    ensures forall i :: 0 <= i < |KeepStripped(ps)| ==> IsKeyword(KeepStripped(ps)[i])
  {
    if ps != [] {
      KeepStrippedShape(ps[1..]);
      var st := Strip(ps[0]);
      StripShape(ps[0]);
      StripChars(ps[0]);
      var tail := KeepStripped(ps[1..]);
      var r := KeepStripped(ps);
      if st != "" {
        assert r == [st] + tail;
        assert IsKeyword(st);
        forall i | 0 <= i < |r| ensures IsKeyword(r[i]) {
          if i > 0 {
            assert r[i] == tail[i - 1];
          }
        }
      } else {
        assert r == tail;
      }
    }
  }

  /** Every parsed keyword is non-empty, stripped and free of commas. */
  lemma KeywordListShape(s: string)
    ensures forall i :: 0 <= i < |KeywordList(s)| ==> IsKeyword(KeywordList(s)[i])
  {
    SplitPieceFree(s, ',');
    KeepStrippedShape(Split(s, ','));
  }

  function Prefixed(xs: seq<string>, p: string): (r: seq<string>)
    ensures |r| == |xs|
  {
    if xs == [] then [] else [p + xs[0]] + Prefixed(xs[1..], p)
  }

  lemma {:induction false} SplitCommaSpaceJoin(ks: seq<string>)
    requires |ks| >= 1
    requires forall i :: 0 <= i < |ks| ==> ',' !in ks[i]
    ensures Split(Join(ks, ", "), ',') == [ks[0]] + Prefixed(ks[1..], " ")
  {
    if |ks| == 1 {
      SplitPrefix(ks[0], "", ',');
      assert ks[0] + "" == ks[0];
    } else {
      var j := Join(ks[1..], ", ");
      SplitCommaSpaceJoin(ks[1..]);
      var sj := Split(j, ',');
      assert Join(ks, ", ") == ks[0] + ([','] + (" " + j));
      SplitPrefix(" ", j, ',');
      assert ([','] + (" " + j))[1..] == " " + j;
      assert Split([','] + (" " + j), ',') == [""] + Split(" " + j, ',');
      SplitPrefix(ks[0], [','] + (" " + j), ',');
      assert ks[0] + "" == ks[0];
      assert Split(" " + j, ',') == [" " + ks[1]] + Prefixed(ks[2..], " ") by {
        assert ks[1..][1..] == ks[2..];
      }
      assert Prefixed(ks[1..], " ") == [" " + ks[1]] + Prefixed(ks[2..], " ");
    }
  }

  lemma {:induction false} KeepStrippedPrefixed(ks: seq<string>)
    requires forall i :: 0 <= i < |ks| ==> IsKeyword(ks[i])
    ensures KeepStripped(Prefixed(ks, " ")) == ks
  {
    if ks != [] {
      KeepStrippedPrefixed(ks[1..]);
      StripLeadingSpace(' ', ks[0]);
      StrippedIsFixed(ks[0]);
      assert [' '] + ks[0] == " " + ks[0];
      assert Prefixed(ks, " ")[1..] == Prefixed(ks[1..], " ");
    }
  }

  /**
    Keywords written out as `', '.join(keywords)` (as the prompt shows them)
    parse back to the same list, in order and with repetitions.
  */
  lemma {:induction false} KeywordListOfJoined(ks: seq<string>)
    requires forall i :: 0 <= i < |ks| ==> IsKeyword(ks[i])
    ensures KeywordList(Join(ks, ", ")) == ks
  {
    if ks == [] {
      assert Split("", ',') == [""];
      assert Strip("") == "";
    } else {
      assert forall i :: 0 <= i < |ks| ==> ',' !in ks[i];
      SplitCommaSpaceJoin(ks);
      var ps := Split(Join(ks, ", "), ',');
      assert ps == [ks[0]] + Prefixed(ks[1..], " ");
      assert ps[1..] == Prefixed(ks[1..], " ");
      StrippedIsFixed(ks[0]);
      KeepStrippedPrefixed(ks[1..]);
      assert KeepStripped(ps) == [ks[0]] + KeepStripped(ps[1..]);
      assert ks == [ks[0]] + ks[1..];
    }
  }
}
