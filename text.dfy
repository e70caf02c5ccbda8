// Character-level text handling the two chat handlers rely on: case folding
// of command words and card tokens, and the two ways of splitting a message
// into tokens (Python's str.split() and JavaScript's trim().split(/ +/)).

module Text {

  /** ASCII lower-casing of one character (str.lower / String.toLowerCase). */
  function LowerChar(c: char): char {
    if 'A' <= c <= 'Z' then (c as int + 32) as char else c
  }

  /** ASCII upper-casing of one character (str.upper / String.toUpperCase). */
  function UpperChar(c: char): char {
    if 'a' <= c <= 'z' then (c as int - 32) as char else c
  }

  function Lower(s: string): string {
    seq(|s|, i requires 0 <= i < |s| => LowerChar(s[i]))
  }

  function Upper(s: string): string {
    seq(|s|, i requires 0 <= i < |s| => UpperChar(s[i]))
  }

  /**
   * JavaScript's `===` on two strings: the same characters in the same order.
   * Named rather than written inline so that the handler proofs compare
   * messages to command words without unfolding each literal.
   */
  predicate SameText(s: string, t: string) {
    s == t
  }

  /** str.startswith / String.startsWith. */
  predicate StartsWith(s: string, prefix: string) {
    prefix <= s
  }

  /** A string that starts with q also starts with every prefix of q. */
  lemma StartsWithShorter(s: string, p: string, q: string)
    requires StartsWith(q, p) && StartsWith(s, q)
    ensures StartsWith(s, p)
  {
    assert s[..|p|] == q[..|p|];
  }

  /** Two prefixes that differ at some position cannot both start one string. */
  lemma PrefixesExclude(s: string, p: string, q: string, i: nat)
    requires i < |p| && i < |q| && p[i] != q[i]
    ensures !(StartsWith(s, p) && StartsWith(s, q))
  {
    if StartsWith(s, p) {
      assert s[i] == p[i];
    }
  }

  // ---------------------------------------------------------------------
  // Python: message.content.split()

  /** The characters for which Python's str.isspace() holds. */
  predicate IsPySpace(c: char) {
    c == ' ' || '\t' <= c <= '\r' || '\U{1C}' <= c <= '\U{1F}' ||
    c == '\U{85}' || c == '\U{A0}' || c == '\U{1680}' ||
    '\U{2000}' <= c <= '\U{200A}' || c == '\U{2028}' || c == '\U{2029}' ||
    c == '\U{202F}' || c == '\U{205F}' || c == '\U{3000}'
  }

  /** str.split() with no separator: maximal runs of non-whitespace, empty words dropped. */
  function PySplit(s: string): (words: seq<string>)
    ensures forall k :: 0 <= k < |words| ==> words[k] != [] && forall c :: c in words[k] ==> !IsPySpace(c)
  {
    PyWords(s, "")
  }

  /** Splits s, where `word` is the part of the current word already read. */
  function PyWords(s: string, word: string): (words: seq<string>)
    requires forall c :: c in word ==> !IsPySpace(c)
    ensures forall k :: 0 <= k < |words| ==> words[k] != [] && forall c :: c in words[k] ==> !IsPySpace(c)
    decreases |s|
  {
    if s == [] then
      (if word == [] then [] else [word])
    else if IsPySpace(s[0]) then
      (if word == [] then [] else [word]) + PyWords(s[1..], "")
    else
      PyWords(s[1..], word + [s[0]])
  }

  /** A word already begun, followed by more non-whitespace, stays one word. */
  lemma {:induction false} PyWordsOfWord(s: string, word: string)
    requires forall c :: c in word ==> !IsPySpace(c)
    requires forall c :: c in s ==> !IsPySpace(c)
    requires word + s != []
    ensures PyWords(s, word) == [word + s]
    decreases |s|
  {
    if s == [] {
      assert word + s == word;
    } else {
      assert s[0] in s;
      assert forall c :: c in s[1..] ==> c in s;
      PyWordsOfWord(s[1..], word + [s[0]]);
      assert word + [s[0]] + s[1..] == word + s;
    }
  }

  /** A non-empty string without whitespace splits into itself alone. */
  lemma PySplitWord(s: string)
    requires s != [] && forall c :: c in s ==> !IsPySpace(c)
    ensures PySplit(s) == [s]
  {
    PyWordsOfWord(s, "");
    assert "" + s == s;
  }

  /** Splitting at one whitespace character splits the two sides apart. */
  lemma {:induction false} PyWordsAtSpace(a: string, w: char, b: string, word: string)
    requires IsPySpace(w) && forall c :: c in word ==> !IsPySpace(c)
    ensures PyWords(a + [w] + b, word) == PyWords(a, word) + PyWords(b, "")
    decreases |a|
  {
    var s := a + [w] + b;
    if a == [] {
      assert s[0] == w && s[1..] == b;
    } else {
      assert s[0] == a[0] && s[1..] == a[1..] + [w] + b;
      if IsPySpace(a[0]) {
        PyWordsAtSpace(a[1..], w, b, "");
        var head := if word == [] then [] else [word];
        assert head + (PyWords(a[1..], "") + PyWords(b, "")) == (head + PyWords(a[1..], "")) + PyWords(b, "");
      } else {
        PyWordsAtSpace(a[1..], w, b, word + [a[0]]);
      }
    }
  }

  /**
   * str.split() cuts at every whitespace character: the words of a + [w] + b
   * are those of a followed by those of b. With PySplitWord and the empty
   * string having no words, this determines the split of every string.
   */
  lemma PySplitAtSpace(a: string, w: char, b: string)
    requires IsPySpace(w)
    ensures PySplit(a + [w] + b) == PySplit(a) + PySplit(b)
  {
    PyWordsAtSpace(a, w, b, "");
  }

  // ---------------------------------------------------------------------
  // JavaScript: message.content.trim().split(/ +/)

  /** The characters String.prototype.trim removes: WhiteSpace and LineTerminator. */
  predicate IsJsSpace(c: char) {
    c == ' ' || '\t' <= c <= '\r' || c == '\U{A0}' || c == '\U{1680}' ||
    '\U{2000}' <= c <= '\U{200A}' || c == '\U{2028}' || c == '\U{2029}' ||
    c == '\U{202F}' || c == '\U{205F}' || c == '\U{3000}' || c == '\U{FEFF}'
  }

  function TrimStart(s: string): (r: string)
    ensures |r| <= |s|
  {
    if s != [] && IsJsSpace(s[0]) then TrimStart(s[1..]) else s
  }

  function TrimEnd(s: string): (r: string)
    ensures |r| <= |s|
  {
    if s != [] && IsJsSpace(s[|s| - 1]) then TrimEnd(s[..|s| - 1]) else s
  }

  function JsTrim(s: string): string {
    TrimEnd(TrimStart(s))
  }

  /** Drops a leading run of spaces. */
  function SkipSpaces(s: string): (r: string)
    ensures |r| <= |s|
  {
    if s != [] && s[0] == ' ' then SkipSpaces(s[1..]) else s
  }

  /** s.split(/ +/): fields separated by runs of U+0020, empty fields kept. */
  function SplitOnSpaces(s: string): seq<string> {
    SpaceFields(s, "")
  }

  function SpaceFields(s: string, field: string): (fields: seq<string>)
    ensures |fields| >= 1
    decreases |s|
  {
    if s == [] then [field]
    else if s[0] == ' ' then [field] + SpaceFields(SkipSpaces(s[1..]), "")
    else SpaceFields(s[1..], field + [s[0]])
  }

  /** The args array of the bot.js handler; like every String.split result it is never empty. */
  function JsArgs(content: string): (args: seq<string>)
    ensures |args| >= 1
  {
    SplitOnSpaces(JsTrim(content))
  }

  /** Leading whitespace is dropped up to the first other character. */
  lemma {:induction false} TrimStartPadded(p: string, t: string)
    requires forall c :: c in p ==> IsJsSpace(c)
    requires t == [] || !IsJsSpace(t[0])
    ensures TrimStart(p + t) == t
    decreases |p|
  {
    if p == [] {
      assert p + t == t;
    } else {
      assert p[0] in p;
      assert forall c :: c in p[1..] ==> c in p;
      assert (p + t)[0] == p[0] && (p + t)[1..] == p[1..] + t;
      TrimStartPadded(p[1..], t);
    }
  }

  /** Trailing whitespace is dropped back to the last other character. */
  lemma {:induction false} TrimEndPadded(t: string, q: string)
    requires forall c :: c in q ==> IsJsSpace(c)
    requires t == [] || !IsJsSpace(t[|t| - 1])
    ensures TrimEnd(t + q) == t
    decreases |q|
  {
    if q == [] {
      assert t + q == t;
    } else {
      var n := |t + q|;
      assert (t + q)[n - 1] == q[|q| - 1] && q[|q| - 1] in q;
      assert (t + q)[..n - 1] == t + q[..|q| - 1];
      assert forall c :: c in q[..|q| - 1] ==> c in q;
      TrimEndPadded(t, q[..|q| - 1]);
    }
  }

  /**
   * trim() removes exactly the whitespace around a text that neither starts
   * nor ends with whitespace, so the args are the split of that text.
   */
  lemma JsArgsTrimmed(p: string, s: string, q: string)
    requires forall c :: c in p ==> IsJsSpace(c)
    requires forall c :: c in q ==> IsJsSpace(c)
    requires s == [] || (!IsJsSpace(s[0]) && !IsJsSpace(s[|s| - 1]))
    ensures JsTrim(p + s + q) == s
    ensures JsArgs(p + s + q) == SplitOnSpaces(s)
  {
    if s == [] {
      assert p + s + q == (p + q) + s;
      assert forall c :: c in p + q ==> c in p || c in q;
      TrimStartPadded(p + q, s);
    } else {
      assert p + s + q == p + (s + q);
      assert (s + q)[0] == s[0];
      TrimStartPadded(p, s + q);
      TrimEndPadded(s, q);
    }
  }

  /** A run of spaces is skipped up to the first other character. */
  lemma {:induction false} SkipSpacesRun(run: string, b: string)
    requires forall c :: c in run ==> c == ' '
    requires b == [] || b[0] != ' '
    ensures SkipSpaces(run + b) == b
    decreases |run|
  {
    if run == [] {
      assert run + b == b;
    } else {
      assert run[0] in run;
      assert forall c :: c in run[1..] ==> c in run;
      assert (run + b)[0] == run[0] && (run + b)[1..] == run[1..] + b;
      SkipSpacesRun(run[1..], b);
    }
  }

  /** A field without spaces, a run of spaces, then the rest: the field ends at the run. */
  lemma {:induction false} SpaceFieldsAtRun(a: string, run: string, b: string, field: string)
    requires ' ' !in a
    requires run != [] && forall c :: c in run ==> c == ' '
    requires b == [] || b[0] != ' '
    ensures SpaceFields(a + run + b, field) == [field + a] + SpaceFields(b, "")
    decreases |a|
  {
    var s := a + run + b;
    if a == [] {
      assert run[0] in run;
      assert s[0] == run[0] && s[1..] == run[1..] + b;
      assert forall c :: c in run[1..] ==> c in run;
      SkipSpacesRun(run[1..], b);
      assert field + a == field;
    } else {
      assert a[0] in a;
      assert s[0] == a[0] && s[1..] == a[1..] + run + b;
      assert ' ' !in a[1..] by {
        forall k | 0 <= k < |a[1..]| ensures a[1..][k] != ' ' { assert a[1..][k] == a[k + 1]; }
      }
      SpaceFieldsAtRun(a[1..], run, b, field + [a[0]]);
      assert field + [a[0]] + a[1..] == field + a;
    }
  }

  /** A text without spaces is a single field. */
  lemma SplitOnSpacesWord(s: string)
    requires ' ' !in s
    ensures SplitOnSpaces(s) == [s]
  {
    SpaceFieldsWithoutSpace(s, "");
    assert "" + s == s;
  }

  /**
   * split(/ +/) cuts at every maximal run of spaces: the fields of a + run + b
   * are a followed by the fields of b. With SplitOnSpacesWord this determines
   * the split of every text.
   */
  lemma SplitOnSpacesAtRun(a: string, run: string, b: string)
    requires ' ' !in a
    requires run != [] && forall c :: c in run ==> c == ' '
    requires b == [] || b[0] != ' '
    ensures SplitOnSpaces(a + run + b) == [a] + SplitOnSpaces(b)
  {
    SpaceFieldsAtRun(a, run, b, "");
    assert "" + a == a;
  }

  lemma {:induction false} SpaceFieldsWithoutSpace(s: string, field: string)
    requires ' ' !in s
    ensures SpaceFields(s, field) == [field + s]
    decreases |s|
  {
    if s != [] {
      assert s[0] in s;
      assert ' ' !in s[1..] by { forall k | 0 <= k < |s[1..]| ensures s[1..][k] != ' ' { assert s[1..][k] == s[k + 1]; } }
      SpaceFieldsWithoutSpace(s[1..], field + [s[0]]);
      assert s == [s[0]] + s[1..];
      assert field + [s[0]] + s[1..] == field + s;
    } else {
      assert field + s == field;
    }
  }

  /**
   * A message whose lower-cased text is exactly "!dealer" splits into the
   * single argument "!dealer" as typed: it contains no whitespace at all.
   */
  lemma DealerCommandHasOneArg(content: string)
    requires Lower(content) == "!dealer"
    ensures JsArgs(content) == [content]
  {
    assert |content| == 7;
    forall k | 0 <= k < |content|
      ensures !IsJsSpace(content[k]) && content[k] != ' '
    {
      assert Lower(content)[k] == LowerChar(content[k]);
    }
    assert TrimStart(content) == content;
    assert TrimEnd(content) == content;
    SpaceFieldsWithoutSpace(content, "");
    assert "" + content == content;
  }
}
