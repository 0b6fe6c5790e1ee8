/** Splitting and joining text the way the Python sources do it:
    `str.split(sep)`, `str.split()`, `sep.join(parts)` and `str.rstrip()`. */
module Text {

  predicate IsNewline(c: char) { c == '\n' }

  predicate IsComma(c: char) { c == ',' }

  /** ASCII white space: blank, tab, line feed, vertical tab, form feed, carriage return. */
  predicate IsSpace(c: char) { c == ' ' || ('\t' <= c <= '\r') }

  /** No character of the text is a separator. */
  predicate Clean(s: string, sep: char -> bool) {
    forall i :: 0 <= i < |s| ==> !sep(s[i])
  }

  /** Cut the text at every separator; a text without separators is one part. */
  function Split(s: string, sep: char -> bool): (parts: seq<string>)
    ensures |parts| > 0
  {
    if s == [] then [[]]
    else
      var rest := Split(s[1..], sep);
      if sep(s[0]) then [[]] + rest else [[s[0]] + rest[0]] + rest[1..]
  }

  function Join(parts: seq<string>, sep: char): string {
    if parts == [] then []
    else if |parts| == 1 then parts[0]
    else parts[0] + [sep] + Join(parts[1..], sep)
  }

  lemma {:induction false} SplitClean(s: string, sep: char -> bool)
    requires Clean(s, sep)
    ensures Split(s, sep) == [s]
  {
    if s != [] {
      SplitClean(s[1..], sep);
      assert [s[0]] + s[1..] == s;
    }
  }

  /** One more character in front of the parts. */
  function Prepend(c: char, parts: seq<string>, sep: char -> bool): seq<string>
    requires |parts| > 0
  {
    if sep(c) then [[]] + parts else [[c] + parts[0]] + parts[1..]
  }

  lemma {:induction false} SplitFirst(c: char, s: string, sep: char -> bool)
    ensures Split([c] + s, sep) == Prepend(c, Split(s, sep), sep)
  {
    assert ([c] + s)[0] == c && ([c] + s)[1..] == s;
  }

  lemma PrependAppend(c: char, a: seq<string>, b: seq<string>, sep: char -> bool)
    requires |a| > 0
    ensures Prepend(c, a + b, sep) == Prepend(c, a, sep) + b
  {
    assert (a + b)[0] == a[0] && (a + b)[1..] == a[1..] + b;
  }

  /** A separator always ends the part before it, whatever surrounds it. */
  lemma {:induction false} SplitAppend(a: string, c: char, b: string, sep: char -> bool)
    requires sep(c)
    ensures Split(a + [c] + b, sep) == Split(a, sep) + Split(b, sep)
  {
    if a == [] {
      SplitFirst(c, b, sep);
      assert a + [c] + b == [c] + b;
    } else {
      var first, rest := a[0], a[1..];
      SplitAppend(rest, c, b, sep);
      SplitFirst(first, rest, sep);
      SplitFirst(first, rest + [c] + b, sep);
      PrependAppend(first, Split(rest, sep), Split(b, sep), sep);
      assert a == [first] + rest && a + [c] + b == [first] + (rest + [c] + b);
    }
  }

  lemma {:induction false} SplitJoin(parts: seq<string>, c: char, sep: char -> bool)
    requires |parts| > 0 && sep(c)
    requires forall i :: 0 <= i < |parts| ==> Clean(parts[i], sep)
    ensures Split(Join(parts, c), sep) == parts
  {
    SplitClean(parts[0], sep);
    if |parts| > 1 {
      SplitJoin(parts[1..], c, sep);
      SplitAppend(parts[0], c, Join(parts[1..], c), sep);
      assert [parts[0]] + parts[1..] == parts;
    } else {
      assert parts == [parts[0]];
    }
  }

  /** Joining the parts of a text with its only separator gives the text back. */
  lemma {:induction false} JoinSplit(s: string, c: char, sep: char -> bool)
    requires forall d :: sep(d) <==> d == c
    ensures Join(Split(s, sep), c) == s
  {
    if s != [] {
      JoinSplit(s[1..], c, sep);
      var rest := Split(s[1..], sep);
      var parts := Split(s, sep);
      if sep(s[0]) {
        assert parts[1..] == rest;
        assert Join(parts, c) == [] + [c] + Join(rest, c);
      } else if |rest| == 1 {
        assert parts == [[s[0]] + rest[0]];
      } else {
        assert parts[1..] == rest[1..];
        assert Join(parts, c) == ([s[0]] + rest[0]) + [c] + Join(rest[1..], c);
        assert Join(rest, c) == rest[0] + [c] + Join(rest[1..], c);
      }
      assert [s[0]] + s[1..] == s;
    }
  }

  lemma {:induction false} SplitPartsClean(s: string, sep: char -> bool)
    ensures forall i :: 0 <= i < |Split(s, sep)| ==> Clean(Split(s, sep)[i], sep)
  {
    if s != [] {
      SplitPartsClean(s[1..], sep);
    }
  }

  /** Cutting text short cuts its parts short: line by line a prefix. */
  lemma {:induction false} SplitPrefix(s: string, n: nat, sep: char -> bool)
    requires n <= |s|
    ensures |Split(s[..n], sep)| <= |Split(s, sep)|
    ensures forall i :: 0 <= i < |Split(s[..n], sep)| ==> Split(s[..n], sep)[i] <= Split(s, sep)[i]
  {
    if n > 0 {
      assert s[..n][0] == s[0] && s[..n][1..] == s[1..][..n - 1];
      SplitPrefix(s[1..], n - 1, sep);
    }
  }

  function NonEmpty(parts: seq<string>): seq<string> {
    if parts == [] then []
    else (if parts[0] == [] then [] else [parts[0]]) + NonEmpty(parts[1..])
  }

  lemma {:induction false} NonEmptyAppend(a: seq<string>, b: seq<string>)
    ensures NonEmpty(a + b) == NonEmpty(a) + NonEmpty(b)
  {
    if a == [] {
      assert a + b == b;
    } else {
      assert (a + b)[0] == a[0] && (a + b)[1..] == a[1..] + b;
      NonEmptyAppend(a[1..], b);
    }
  }

  lemma {:induction false} NonEmptyKeepsAll(parts: seq<string>)
    requires forall i :: 0 <= i < |parts| ==> parts[i] != []
    ensures NonEmpty(parts) == parts
  {
    if parts != [] {
      NonEmptyKeepsAll(parts[1..]);
    }
  }

  lemma {:induction false} NonEmptyParts(parts: seq<string>)
    ensures forall w :: w in NonEmpty(parts) ==> w != [] && w in parts
  {
    if parts != [] {
      NonEmptyParts(parts[1..]);
    }
  }

  /** `str.split()` without arguments: the maximal runs of non-space characters. */
  function Words(s: string): seq<string> {
    NonEmpty(Split(s, IsSpace))
  }

  predicate IsWord(w: string) { w != [] && Clean(w, IsSpace) }

  lemma WordsAreWords(s: string)
    ensures forall w :: w in Words(s) ==> IsWord(w)
  {
    NonEmptyParts(Split(s, IsSpace));
    SplitPartsClean(s, IsSpace);
  }

  lemma WordsOfJoin(words: seq<string>)
    requires forall i :: 0 <= i < |words| ==> IsWord(words[i])
    ensures Words(Join(words, ' ')) == words
  {
    if words == [] {
      var blank: seq<string> := [[]];
      assert Split([], IsSpace) == blank && blank[1..] == [];
      assert NonEmpty(blank) == NonEmpty(blank[1..]);
    } else {
      SplitJoin(words, ' ', IsSpace);
      NonEmptyKeepsAll(words);
    }
  }

  /** A line printed from words reads back as those words. */
  lemma WordsOfLine(words: seq<string>)
    requires forall i :: 0 <= i < |words| ==> IsWord(words[i])
    ensures Words(Join(words, ' ') + "\n") == words
  {
    var line := Join(words, ' ');
    SplitAppend(line, '\n', [], IsSpace);
    assert line + ['\n'] + [] == line + "\n";
    NonEmptyAppend(Split(line, IsSpace), [[]]);
    WordsOfJoin(words);
  }

  /** `str.rstrip()`. */
  function RStrip(s: string): (r: string)
    ensures r <= s
  {
    if s != [] && IsSpace(s[|s| - 1]) then RStrip(s[..|s| - 1]) else s
  }

  /** `kept` is `s` up to its last character that is not white space. */
  predicate IsStripped(s: string, kept: string) {
    && kept <= s
    && (forall i :: |kept| <= i < |s| ==> IsSpace(s[i]))
    && (kept != [] ==> !IsSpace(kept[|kept| - 1]))
  }

  lemma {:induction false} RStripMeaning(s: string)
    ensures IsStripped(s, RStrip(s))
  {
    if s != [] && IsSpace(s[|s| - 1]) {
      RStripMeaning(s[..|s| - 1]);
    }
  }
}
