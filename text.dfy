/**
 * The JavaScript string operations the services rely on, with their exact
 * edge cases: `split` on a character, `trim`, `startsWith`, `includes`,
 * `replace` of the first occurrence, case mapping, and the split on runs of
 * non-letters (`split(/\P{L}+/u)`).
 */
module Text {

  /** Letter class and case maps of the Unicode tables, left abstract: every
      property below holds for any choice of them. */
  datatype Unicode = Unicode(isLetter: char -> bool, lower: char -> char, upper: char -> char)

  /** `toLowerCase`, character by character. */
  function LowerStr(u: Unicode, s: string): (r: string)
    ensures |r| == |s| && forall i :: 0 <= i < |s| ==> r[i] == u.lower(s[i])
  {
    if s == [] then [] else [u.lower(s[0])] + LowerStr(u, s[1..])
  }

  /** `toUpperCase`, character by character. */
  function UpperStr(u: Unicode, s: string): (r: string)
    ensures |r| == |s| && forall i :: 0 <= i < |s| ==> r[i] == u.upper(s[i])
  {
    if s == [] then [] else [u.upper(s[0])] + UpperStr(u, s[1..])
  }

  /** ECMAScript WhiteSpace and LineTerminator code points, the set `trim` removes. */
  predicate IsWhitespace(c: char) {
    || c == '\t' || c == '\n' || c == '\U{000B}' || c == '\U{000C}' || c == '\r' || c == ' '
    || c == '\U{00A0}' || c == '\U{1680}' || ('\U{2000}' <= c <= '\U{200A}')
    || c == '\U{2028}' || c == '\U{2029}' || c == '\U{202F}' || c == '\U{205F}' || c == '\U{3000}'
    || c == '\U{FEFF}'
  }

  predicate AllWhitespace(s: string) {
    forall i :: 0 <= i < |s| ==> IsWhitespace(s[i])
  }

  /** `trimStart`: drops the leading whitespace. */
  function TrimStart(s: string): string {
    if s != [] && IsWhitespace(s[0]) then TrimStart(s[1..]) else s
  }

  /** `trimEnd`: drops the trailing whitespace. */
  function TrimEnd(s: string): string {
    if s != [] && IsWhitespace(s[|s| - 1]) then TrimEnd(s[..|s| - 1]) else s
  }

  /** `trim`: drops whitespace at both ends. */
  function Trim(s: string): string {
    TrimEnd(TrimStart(s))
  }

  /** What `trimStart` removes is whitespace, and what it keeps is a suffix
      that does not start with whitespace. */
  lemma {:induction false} TrimStartSpec(s: string)
    ensures |TrimStart(s)| <= |s| && TrimStart(s) == s[|s| - |TrimStart(s)|..]
    ensures AllWhitespace(s[..|s| - |TrimStart(s)|])
    ensures TrimStart(s) != [] ==> !IsWhitespace(TrimStart(s)[0])
  {
    if s != [] && IsWhitespace(s[0]) {
      TrimStartSpec(s[1..]);
      var r := TrimStart(s);
      assert s[..|s| - |r|] == [s[0]] + s[1..][..|s| - 1 - |r|];
    }
  }

  /** What `trimEnd` removes is whitespace, and what it keeps is a prefix
      that does not end with whitespace. */
  lemma {:induction false} TrimEndSpec(s: string)
    ensures |TrimEnd(s)| <= |s| && TrimEnd(s) == s[..|TrimEnd(s)|]
    ensures AllWhitespace(s[|TrimEnd(s)|..])
    ensures TrimEnd(s) != [] ==> !IsWhitespace(TrimEnd(s)[|TrimEnd(s)| - 1])
  {
    if s != [] && IsWhitespace(s[|s| - 1]) {
      var init := s[..|s| - 1];
      TrimEndSpec(init);
      var r := TrimEnd(s);
      assert r == TrimEnd(init);
      assert s[|r|..] == init[|r|..] + [s[|s| - 1]];
      assert init[..|r|] == s[..|r|];
    }
  }

  /** `trim` keeps an infix of `s` with only whitespace around it, and
      neither end of what it keeps is whitespace. */
  lemma TrimSpec(s: string)
    ensures exists i ::
      0 <= i <= |s| - |Trim(s)| && Trim(s) == s[i..i + |Trim(s)|] && AllWhitespace(s[..i]) && AllWhitespace(s[i + |Trim(s)|..])
    ensures Trim(s) != [] ==> !IsWhitespace(Trim(s)[0]) && !IsWhitespace(Trim(s)[|Trim(s)| - 1])
  {
    var t := TrimStart(s);
    TrimStartSpec(s);
    TrimEndSpec(t);
    var r := TrimEnd(t);
    var i := |s| - |t|;
    assert r == s[i..i + |r|];
    assert s[i + |r|..] == t[|r|..];
  }

  /** `split(sep)` with a one-character separator: the pieces between the
      separators, always at least one. */
  function Split(s: string, sep: char): (parts: seq<string>)
    ensures |parts| >= 1
    ensures forall i :: 0 <= i < |parts| ==> sep !in parts[i]
  {
    if s == [] then [""]
    else
      var rest := Split(s[1..], sep);
      if s[0] == sep then [""] + rest else [[s[0]] + rest[0]] + rest[1..]
  }

  /** `join(sep)`. */
  function Join(parts: seq<string>, sep: char): string {
    if |parts| == 0 then ""
    else if |parts| == 1 then parts[0]
    else parts[0] + [sep] + Join(parts[1..], sep)
  }

  /** Splitting loses nothing: joining the pieces gives back the string. */
  lemma {:induction false} JoinSplit(s: string, sep: char)
    ensures Join(Split(s, sep), sep) == s
  {
    if s != [] {
      var rest := Split(s[1..], sep);
      JoinSplit(s[1..], sep);
      if s[0] == sep {
        assert Split(s, sep) == [""] + rest;
        assert s == [sep] + s[1..];
      } else {
        var parts := Split(s, sep);
        assert parts == [[s[0]] + rest[0]] + rest[1..];
        if |rest| == 1 {
          assert s == [s[0]] + rest[0];
        } else {
          assert parts[1..] == rest[1..];
          assert Join(rest, sep) == rest[0] + [sep] + Join(rest[1..], sep);
          assert s == [s[0]] + (rest[0] + [sep] + Join(rest[1..], sep));
        }
      }
    }
  }

  /** And splitting undoes joining pieces that do not contain the separator. */
  lemma {:induction false} SplitJoin(parts: seq<string>, sep: char)
    requires |parts| >= 1
    requires forall i :: 0 <= i < |parts| ==> sep !in parts[i]
    ensures Split(Join(parts, sep), sep) == parts
  {
    if |parts| == 1 {
      SplitPiece(parts[0], sep);
    } else {
      SplitJoin(parts[1..], sep);
      SplitPrefix(parts[0], Join(parts[1..], sep), sep);
      assert [parts[0]] + parts[1..] == parts;
    }
  }

  /** A piece without the separator splits into itself. */
  lemma {:induction false} SplitPiece(p: string, sep: char)
    requires sep !in p
    ensures Split(p, sep) == [p]
  {
    if p != [] {
      SplitPiece(p[1..], sep);
      assert p[0] != sep;
      assert [p[0]] + p[1..] == p;
    }
  }

  /** Splitting `p + sep + rest` gives `p` followed by the pieces of `rest`. */
  lemma {:induction false} SplitPrefix(p: string, rest: string, sep: char)
    requires sep !in p
    ensures Split(p + [sep] + rest, sep) == [p] + Split(rest, sep)
  {
    if p == [] {
      assert p + [sep] + rest == [sep] + rest;
      assert ([sep] + rest)[1..] == rest;
    } else {
      SplitPrefix(p[1..], rest, sep);
      assert (p + [sep] + rest)[1..] == p[1..] + [sep] + rest;
      assert [p[0]] + p[1..] == p;
    }
  }

  predicate StartsWith(s: string, prefix: string) {
    prefix <= s
  }

  /** `includes`: `q` occurs somewhere in `s`. */
  predicate Contains(s: string, q: string) {
    exists i :: 0 <= i <= |s| && q <= s[i..]
  }

  /** `indexOf`: the first position where `p` occurs in `s`, at or after `from`. */
  function IndexOf(s: string, p: string, from: nat): (r: int)
    requires from <= |s|
    ensures r == -1 || (from <= r <= |s| && p <= s[r..])
    ensures r == -1 ==> forall j :: from <= j <= |s| ==> !(p <= s[j..])
    ensures r != -1 ==> forall j :: from <= j < r ==> !(p <= s[j..])
    decreases |s| - from
  {
    if p <= s[from..] then from
    else if from == |s| then -1
    else IndexOf(s, p, from + 1)
  }

  /** `replace(p, r)` with a string pattern: only the first occurrence is replaced. */
  function ReplaceFirst(s: string, p: string, r: string): string {
    var i := IndexOf(s, p, 0);
    if i == -1 then s else s[..i] + r + s[i + |p|..]
  }

  /** When `s` starts with `p`, the first occurrence is that prefix. */
  lemma ReplacePrefix(s: string, p: string)
    requires StartsWith(s, p)
    ensures ReplaceFirst(s, p, "") == s[|p|..]
  {
    assert s[0..] == s;
  }

  /** The split of lower-cased text on runs of non-letters: the letter runs of
      `s`, with an empty piece in front when `s` starts with a non-letter and
      at the end when it ends with one (and `[""]` for the empty string). */
  function Words(u: Unicode, s: string): (words: seq<string>)
    ensures |words| >= 1
    ensures forall i, j :: 0 <= i < |words| && 0 <= j < |words[i]| ==> u.isLetter(words[i][j])
    decreases |s|
  {
    if s == [] then [""]
    else if u.isLetter(s[0]) then
      var rest := Words(u, s[1..]);
      [[s[0]] + rest[0]] + rest[1..]
    else [""] + Words(u, DropNonLetters(u, s[1..]))
  }

  /** `s` without its leading run of non-letters. */
  function DropNonLetters(u: Unicode, s: string): (r: string)
    ensures |r| <= |s| && r == s[|s| - |r|..]
    ensures forall i :: 0 <= i < |s| - |r| ==> !u.isLetter(s[i])
    ensures r != [] ==> u.isLetter(r[0])
  {
    if s != [] && !u.isLetter(s[0]) then
      var r := DropNonLetters(u, s[1..]);
      assert s[1..][|s| - 1 - |r|..] == s[|s| - |r|..];
      assert forall i :: 1 <= i < |s| - |r| ==> s[i] == s[1..][i - 1];
      r
    else s
  }

  /** The letters of `s`, in order. */
  function Letters(u: Unicode, s: string): string {
    if s == [] then [] else (if u.isLetter(s[0]) then [s[0]] else []) + Letters(u, s[1..])
  }

  function Concat(ss: seq<string>): string {
    if ss == [] then [] else ss[0] + Concat(ss[1..])
  }

  /** No letter is lost or invented by the split: the words, concatenated,
      are exactly the letters of the text. */
  lemma {:induction false} WordsKeepLetters(u: Unicode, s: string)
    ensures Concat(Words(u, s)) == Letters(u, s)
    decreases |s|
  {
    if s == [] {
      assert Concat([""]) == "" + Concat([]);
    } else if u.isLetter(s[0]) {
      var rest := Words(u, s[1..]);
      WordsKeepLetters(u, s[1..]);
      var w := Words(u, s);
      assert w[1..] == rest[1..];
      assert Concat(rest) == rest[0] + Concat(rest[1..]);
      assert Concat(w) == ([s[0]] + rest[0]) + Concat(rest[1..]);
    } else {
      var d := DropNonLetters(u, s[1..]);
      WordsKeepLetters(u, d);
      LettersSkip(u, s[1..]);
      var w := Words(u, s);
      assert w[1..] == Words(u, d);
      assert Concat(w) == "" + Concat(Words(u, d));
    }
  }

  /** Dropping a run of non-letters does not change the letters. */
  lemma {:induction false} LettersSkip(u: Unicode, s: string)
    ensures Letters(u, DropNonLetters(u, s)) == Letters(u, s)
  {
    if s != [] && !u.isLetter(s[0]) {
      LettersSkip(u, s[1..]);
    }
  }

  predicate AllLetters(u: Unicode, w: string) {
    forall j :: 0 <= j < |w| ==> u.isLetter(w[j])
  }

  /** The words joined with the one-character separator `c`. */
  function JoinWith(ws: seq<string>, c: char): string
    requires |ws| >= 1
  {
    if |ws| == 1 then ws[0] else ws[0] + [c] + JoinWith(ws[1..], c)
  }

  /** A run of letters in front only lengthens the first word. */
  lemma {:induction false} WordsLetterPrefix(u: Unicode, w: string, t: string)
    requires AllLetters(u, w)
    ensures Words(u, w + t) == [w + Words(u, t)[0]] + Words(u, t)[1..]
    decreases |w|
  {
    if w != [] {
      WordsLetterPrefix(u, w[1..], t);
      assert w + t == [w[0]] + (w[1..] + t);
      assert (w + t)[1..] == w[1..] + t;
      var rest := Words(u, w[1..] + t);
      assert rest[0] == w[1..] + Words(u, t)[0] && rest[1..] == Words(u, t)[1..];
      assert u.isLetter((w + t)[0]);
      assert Words(u, w + t) == [[w[0]] + rest[0]] + rest[1..];
      assert [w[0]] + (w[1..] + Words(u, t)[0]) == w + Words(u, t)[0];
    } else {
      var ws := Words(u, t);
      assert w + t == t && w + ws[0] == ws[0];
      assert ws == [ws[0]] + ws[1..];
    }
  }

  /** A text made only of letters is one word. */
  lemma WordsOfLetters(u: Unicode, w: string)
    requires AllLetters(u, w)
    ensures Words(u, w) == [w]
  {
    WordsLetterPrefix(u, w, "");
    assert w + "" == w;
  }

  /** A whole run of non-letters in front is dropped. */
  lemma {:induction false} DropRun(u: Unicode, r: string, t: string)
    requires forall i :: 0 <= i < |r| ==> !u.isLetter(r[i])
    ensures DropNonLetters(u, r + t) == DropNonLetters(u, t)
    decreases |r|
  {
    if r != [] {
      assert (r + t)[1..] == r[1..] + t;
      DropRun(u, r[1..], t);
    } else {
      assert r + t == t;
    }
  }

  /** A run of non-letters, however long, is one break: it splits exactly
      as a single non-letter does. */
  lemma WordsRun(u: Unicode, r: string, c: char, t: string)
    requires r != [] && !u.isLetter(c) && forall i :: 0 <= i < |r| ==> !u.isLetter(r[i])
    ensures Words(u, r + t) == Words(u, [c] + t) == [""] + Words(u, DropNonLetters(u, t))
  {
    assert (r + t)[0] == r[0] && (r + t)[1..] == r[1..] + t;
    DropRun(u, r[1..], t);
    assert ([c] + t)[1..] == t;
  }

  /** Every non-letter ends a word: splitting words joined by a non-letter
      gives them back, provided the inner ones are not empty (two separators
      in a row form one run). The first and last word may be empty, as the
      pieces before a leading and after a trailing separator are. */
  lemma {:induction false} WordsOfJoin(u: Unicode, ws: seq<string>, c: char)
    requires |ws| >= 1 && !u.isLetter(c)
    requires forall i :: 0 <= i < |ws| ==> AllLetters(u, ws[i])
    requires forall i :: 0 < i < |ws| - 1 ==> ws[i] != ""
    ensures Words(u, JoinWith(ws, c)) == ws
    decreases |ws|
  {
    if |ws| == 1 {
      WordsOfLetters(u, ws[0]);
    } else {
      var rest := ws[1..];
      var j := JoinWith(rest, c);
      WordsOfJoin(u, rest, c);
      assert rest[0] == ws[1];
      assert |rest| > 1 ==> rest[0] != "";
      assert DropNonLetters(u, j) == j by {
        if |rest| == 1 {
          assert j == rest[0];
          if j != [] { assert u.isLetter(j[0]); }
        } else {
          assert j == rest[0] + [c] + JoinWith(rest[1..], c);
          assert j[0] == rest[0][0];
        }
      }
      assert ([c] + j)[1..] == j;
      assert Words(u, [c] + j) == [""] + rest;
      assert JoinWith(ws, c) == ws[0] + ([c] + j);
      WordsLetterPrefix(u, ws[0], [c] + j);
      assert ws[0] + "" == ws[0];
      assert ws == [ws[0]] + rest;
    }
  }

  /** Length as JavaScript counts it: in UTF-16 code units. */
  function Utf16Length(s: string): nat {
    if s == [] then 0 else (if s[0] as int > 0xFFFF then 2 else 1) + Utf16Length(s[1..])
  }

  /** Every character takes one or two code units, exactly one when it lies
      in the Basic Multilingual Plane. */
  lemma {:induction false} Utf16LengthBounds(s: string)
    ensures |s| <= Utf16Length(s) <= 2 * |s|
    ensures (forall i :: 0 <= i < |s| ==> s[i] as int <= 0xFFFF) ==> Utf16Length(s) == |s|
  {
    if s != [] {
      Utf16LengthBounds(s[1..]);
      assert forall i :: 0 <= i < |s[1..]| ==> s[1..][i] == s[i + 1];
    }
  }
}
