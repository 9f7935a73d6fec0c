/**
 * The pieces of Rust's `str` API the engine relies on: `split_whitespace`,
 * `join(" ")`, `trim` and `starts_with`, over `string` (a sequence of Unicode
 * scalar values, as Rust's `char`).
 */
module Text {

  /** Rust's `char::is_whitespace`: the Unicode White_Space property. */
  predicate IsWhitespace(c: char) {
    var n := c as int;
    (0x09 <= n <= 0x0D) || n == 0x20 || n == 0x85 || n == 0xA0 || n == 0x1680
    || (0x2000 <= n <= 0x200A) || n == 0x2028 || n == 0x2029 || n == 0x202F
    || n == 0x205F || n == 0x3000
  }

  predicate NoWhitespace(s: string) {
    forall i :: 0 <= i < |s| ==> !IsWhitespace(s[i])
  }

  predicate AllWhitespace(s: string) {
    forall i :: 0 <= i < |s| ==> IsWhitespace(s[i])
  }

  /** A token as `split_whitespace` yields it: non-empty, no whitespace inside. */
  predicate IsWord(s: string) {
    |s| > 0 && NoWhitespace(s)
  }

  predicate AllWords(ws: seq<string>) {
    forall k :: 0 <= k < |ws| ==> IsWord(ws[k])
  }

  predicate StartsWith(s: string, c: char) {
    |s| > 0 && s[0] == c
  }

  /** Length of the leading run of non-whitespace characters. */
  function WordLen(s: string): (n: nat)
    ensures n <= |s|
    ensures NoWhitespace(s[..n])
    ensures n < |s| ==> IsWhitespace(s[n])
  {
    if s == [] || IsWhitespace(s[0]) then 0
    else
      var m := WordLen(s[1..]);
      assert s[..1 + m] == [s[0]] + s[1..][..m];
      1 + m
  }

  /** `s.split_whitespace()`: the maximal runs of non-whitespace, in order. */
  function Words(s: string): (ws: seq<string>)
    ensures AllWords(ws)
    decreases |s|
  {
    if s == [] then []
    else if IsWhitespace(s[0]) then Words(s[1..])
    else
      var n := WordLen(s);
      [s[..n]] + Words(s[n..])
  }

  /** `words.join(" ")`. */
  function JoinSpace(ws: seq<string>): string {
    if ws == [] then ""
    else if |ws| == 1 then ws[0]
    else ws[0] + " " + JoinSpace(ws[1..])
  }

  function TrimStart(s: string): string {
    if s != [] && IsWhitespace(s[0]) then TrimStart(s[1..]) else s
  }

  function TrimEnd(s: string): string {
    if s != [] && IsWhitespace(s[|s| - 1]) then TrimEnd(s[..|s| - 1]) else s
  }

  /** `s.trim()`. */
  function Trim(s: string): string {
    TrimEnd(TrimStart(s))
  }

  lemma {:induction false} WordLenOf(w: string, t: string)
    requires NoWhitespace(w)
    requires t == [] || IsWhitespace(t[0])
    ensures WordLen(w + t) == |w|
  {
    if w != [] {
      assert (w + t)[1..] == w[1..] + t;
      WordLenOf(w[1..], t);
    } else {
      assert w + t == t;
    }
  }

  /** Splitting a word followed by a space and more text. */
  lemma WordsCons(w: string, rest: string)
    requires IsWord(w)
    ensures Words(w + " " + rest) == [w] + Words(rest)
  {
    var s := w + " " + rest;
    WordLenOf(w, " " + rest);
    assert s == w + (" " + rest);
    assert s[..|w|] == w;
    assert s[|w|..] == " " + rest;
    assert (" " + rest)[1..] == rest;
  }

  lemma WordsSingle(w: string)
    requires IsWord(w)
    ensures Words(w) == [w]
  {
    WordLenOf(w, "");
    assert w + "" == w;
    assert w[..|w|] == w;
    assert w[|w|..] == [];
  }

  /** Splitting a single-spaced join gives the words back. */
  lemma {:induction false} WordsJoin(ws: seq<string>)
    requires AllWords(ws)
    ensures Words(JoinSpace(ws)) == ws
  {
    if ws == [] {
    } else if |ws| == 1 {
      WordsSingle(ws[0]);
    } else {
      WordsJoin(ws[1..]);
      WordsCons(ws[0], JoinSpace(ws[1..]));
      assert [ws[0]] + ws[1..] == ws;
    }
  }

  /** A join of words starts and ends with a non-whitespace character. */
  lemma {:induction false} JoinSpaceEnds(ws: seq<string>)
    requires AllWords(ws) && ws != []
    ensures |JoinSpace(ws)| > 0
    ensures !IsWhitespace(JoinSpace(ws)[0])
    ensures !IsWhitespace(JoinSpace(ws)[|JoinSpace(ws)| - 1])
  {
    if |ws| > 1 {
      JoinSpaceEnds(ws[1..]);
      var j := JoinSpace(ws[1..]);
      assert JoinSpace(ws) == ws[0] + " " + j;
      assert JoinSpace(ws)[|JoinSpace(ws)| - 1] == j[|j| - 1];
      assert JoinSpace(ws)[0] == ws[0][0];
    }
  }

  /**
   * What the parser builds its description from: `format!("{} {}", token,
   * rest.join(" ")).trim()` is the single-spaced join of the token and the rest.
   */
  lemma TrimJoin(tok: string, rest: seq<string>)
    requires IsWord(tok) && AllWords(rest)
    ensures Trim(tok + " " + JoinSpace(rest)) == JoinSpace([tok] + rest)
  {
    var s := tok + " " + JoinSpace(rest);
    assert TrimStart(s) == s;
    if rest == [] {
      assert s == tok + " ";
      assert s[..|s| - 1] == tok;
      assert TrimEnd(tok) == tok;
    } else {
      JoinSpaceEnds(rest);
      assert s[|s| - 1] == JoinSpace(rest)[|JoinSpace(rest)| - 1];
      assert ([tok] + rest)[1..] == rest;
    }
  }

  lemma {:induction false} WordsEmptyIff(s: string)
    ensures Words(s) == [] <==> AllWhitespace(s)
    decreases |s|
  {
    if s != [] {
      if IsWhitespace(s[0]) {
        WordsEmptyIff(s[1..]);
        assert AllWhitespace(s) <==> AllWhitespace(s[1..]) by {
          if AllWhitespace(s[1..]) {
            forall i | 0 <= i < |s| ensures IsWhitespace(s[i]) {
              if i > 0 { assert s[i] == s[1..][i - 1]; }
            }
          }
        }
      }
    }
  }

  lemma {:induction false} TrimStartEmptyIff(s: string)
    ensures TrimStart(s) == [] <==> AllWhitespace(s)
    ensures TrimStart(s) != [] ==> !IsWhitespace(TrimStart(s)[0])
    decreases |s|
  {
    if s != [] && IsWhitespace(s[0]) {
      TrimStartEmptyIff(s[1..]);
      assert AllWhitespace(s) <==> AllWhitespace(s[1..]) by {
        if AllWhitespace(s[1..]) {
          forall i | 0 <= i < |s| ensures IsWhitespace(s[i]) {
            if i > 0 { assert s[i] == s[1..][i - 1]; }
          }
        }
      }
    }
  }

  lemma {:induction false} TrimEndKeepsHead(s: string)
    requires s != [] && !IsWhitespace(s[0])
    ensures TrimEnd(s) != []
    decreases |s|
  {
    if IsWhitespace(s[|s| - 1]) {
      TrimEndKeepsHead(s[..|s| - 1]);
    }
  }

  /** `line.trim().is_empty()` exactly when the line has no tokens. */
  lemma TrimEmptyIff(s: string)
    ensures Trim(s) == "" <==> Words(s) == []
  {
    TrimStartEmptyIff(s);
    WordsEmptyIff(s);
    if TrimStart(s) != [] {
      TrimEndKeepsHead(TrimStart(s));
    }
  }
}
