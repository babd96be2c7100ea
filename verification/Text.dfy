/** Strings as the Python services use them: whitespace, words, trimming and
    lower-casing.  Lower-casing is ASCII only. */
module Text {

  predicate IsSpace(c: char) {
    || '\t' <= c <= '\r'
    || '\U{1c}' <= c <= ' '
    || c == '\U{85}' || c == '\U{a0}' || c == '\U{1680}'
    || '\U{2000}' <= c <= '\U{200a}'
    || c == '\U{2028}' || c == '\U{2029}' || c == '\U{202f}' || c == '\U{205f}' || c == '\U{3000}'
  }

  function LowerChar(c: char): char {
    if 'A' <= c <= 'Z' then c - 'A' + 'a' else c
  }

  function Lower(s: string): (r: string)
    ensures |r| == |s| && forall i | 0 <= i < |s| :: r[i] == LowerChar(s[i])
  {
    seq(|s|, i requires 0 <= i < |s| => LowerChar(s[i]))
  }

  function LowerAll(words: seq<string>): (r: seq<string>)
    ensures |r| == |words| && forall i | 0 <= i < |words| :: r[i] == Lower(words[i])
  {
    seq(|words|, i requires 0 <= i < |words| => Lower(words[i]))
  }

  function StripLeft(s: string): string {
    if s != "" && IsSpace(s[0]) then StripLeft(s[1..]) else s
  }

  function StripRight(s: string): string {
    if s != "" && IsSpace(s[|s| - 1]) then StripRight(s[..|s| - 1]) else s
  }

  function Strip(s: string): string {
    StripRight(StripLeft(s))
  }

  /** A nonempty run of characters without whitespace. */
  predicate IsWord(w: string) {
    w != "" && forall i | 0 <= i < |w| :: !IsSpace(w[i])
  }

  predicate AreWords(ws: seq<string>) {
    forall i | 0 <= i < |ws| :: IsWord(ws[i])
  }

  /** The number of leading characters of s that are not whitespace. */
  function WordLength(s: string): (n: nat)
    ensures n <= |s|
    ensures forall i | 0 <= i < n :: !IsSpace(s[i])
    ensures n < |s| ==> IsSpace(s[n])
  {
    if s == "" || IsSpace(s[0]) then 0 else 1 + WordLength(s[1..])
  }

  /** `s.split()`: the maximal runs of characters that are not whitespace. */
  function Words(s: string): (ws: seq<string>)
    ensures AreWords(ws)
    decreases |s|
  {
    if s == "" then []
    else if IsSpace(s[0]) then Words(s[1..])
    else var n := WordLength(s); [s[..n]] + Words(s[n..])
  }

  /** `separator.join(parts)` */
  function Join(separator: string, parts: seq<string>): string {
    if |parts| == 0 then ""
    else if |parts| == 1 then parts[0]
    else parts[0] + separator + Join(separator, parts[1..])
  }

  lemma WordsOfLeadingWord(w: string, rest: string)
    requires IsWord(w) && (rest == "" || IsSpace(rest[0]))
    ensures Words(w + rest) == [w] + Words(rest)
  {
    var s := w + rest;
    var n := WordLength(s);
    assert forall i | 0 <= i < |w| :: s[i] == w[i];
    assert rest != "" ==> s[|w|] == rest[0];
    assert s[..n] == w && s[n..] == rest;
  }

  lemma WordsOfLeadingSpace(c: char, rest: string)
    requires IsSpace(c)
    ensures Words([c] + rest) == Words(rest)
  {
    var s := [c] + rest;
    assert s[1..] == rest;
  }

  /** Splitting undoes joining words with a space. */
  lemma {:induction false} WordsOfJoin(ws: seq<string>)
    requires AreWords(ws)
    ensures Words(Join(" ", ws)) == ws
  {
    if |ws| == 0 {
    } else if |ws| == 1 {
      WordsOfLeadingWord(ws[0], "");
      assert ws[0] + "" == ws[0];
    } else {
      WordsOfJoin(ws[1..]);
      var rest := " " + Join(" ", ws[1..]);
      assert ws[0] + " " + Join(" ", ws[1..]) == ws[0] + rest;
      WordsOfLeadingWord(ws[0], rest);
      assert Words(rest) == Words(rest[1..]);
    }
  }

  /** Words of a text followed by whitespace and more text. */
  lemma {:induction false} WordsOfConcat(a: string, b: string)
    requires b == "" || IsSpace(b[0])
    ensures Words(a + b) == Words(a) + Words(b)
    decreases |a|
  {
    if a == "" {
      assert a + b == b;
    } else if IsSpace(a[0]) {
      WordsOfConcat(a[1..], b);
      assert a + b == [a[0]] + (a[1..] + b);
      WordsOfLeadingSpace(a[0], a[1..] + b);
    } else {
      WordsOfConcat(a[WordLength(a)..], b);
      WordsOfConcatWord(a, b);
    }
  }

  lemma {:induction false} WordsOfConcatWord(a: string, b: string)
    requires a != "" && !IsSpace(a[0])
    requires b == "" || IsSpace(b[0])
    ensures Words(a + b) == [a[..WordLength(a)]] + Words(a[WordLength(a)..] + b)
  {
    var head, rest := a[..WordLength(a)], a[WordLength(a)..] + b;
    assert a + b == head + rest;
    assert rest == "" || IsSpace(rest[0]);
    WordsOfLeadingWord(head, rest);
  }

  lemma {:induction false} LowerIsIdempotent(s: string)
    ensures Lower(Lower(s)) == Lower(s)
  {
  }
}
