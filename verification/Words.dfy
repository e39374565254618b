/** Python's `str.strip`, `str.split` and `" ".join`, as api/chunker.py uses them. */
module Words {

  predicate IsSpace(c: char) {
    || c == ' ' || '\U{0009}' <= c <= '\U{000D}' || '\U{001C}' <= c <= '\U{001F}'
    || c == '\U{0085}' || c == '\U{00A0}' || c == '\U{1680}' || '\U{2000}' <= c <= '\U{200A}'
    || c == '\U{2028}' || c == '\U{2029}' || c == '\U{202F}' || c == '\U{205F}' || c == '\U{3000}'
  }

  /** Letters, the full stop and the separator, seen through `IsSpace`. */
  lemma SpaceFacts()
    ensures IsSpace(' ') && !IsSpace('x') && !IsSpace('.')
  {
  }

  /** Exactly the characters Python takes for whitespace. */
  lemma WhitespaceIs(c: char)
    ensures IsSpace(c) <==>
              c in {'\U{0009}', '\U{000A}', '\U{000B}', '\U{000C}', '\U{000D}', '\U{001C}', '\U{001D}', '\U{001E}',
                    '\U{001F}', ' ', '\U{0085}', '\U{00A0}', '\U{1680}', '\U{2000}', '\U{2001}', '\U{2002}',
                    '\U{2003}', '\U{2004}', '\U{2005}', '\U{2006}', '\U{2007}', '\U{2008}', '\U{2009}',
                    '\U{200A}', '\U{2028}', '\U{2029}', '\U{202F}', '\U{205F}', '\U{3000}'}
  {
  }

  predicate Blank(s: string) {
    forall i | 0 <= i < |s| :: IsSpace(s[i])
  }

  function Leading(s: string): (n: nat)
    ensures n <= |s| && Blank(s[..n]) && (n < |s| ==> !IsSpace(s[n]))
  {
    if s == "" || !IsSpace(s[0]) then 0
    else
      var n := Leading(s[1..]);
      assert s[..n + 1] == [s[0]] + s[1..][..n];
      n + 1
  }

  function Trailing(s: string): (n: nat)
    ensures n <= |s| && Blank(s[|s| - n..]) && (n < |s| ==> !IsSpace(s[|s| - 1 - n]))
  {
    var last := |s| - 1;
    if s == "" || !IsSpace(s[last]) then 0
    else
      var n := Trailing(s[..last]);
      assert s[|s| - (n + 1)..] == s[..last][last - n..] + [s[last]];
      n + 1
  }

  /** Only whitespace is trimmed, and all of it at either end. */
  lemma TrimFacts(s: string)
    ensures forall i | 0 <= i < Leading(s) || |s| - Trailing(s) <= i < |s| :: IsSpace(s[i])
    ensures Leading(s) == |s| <==> Blank(s)
    ensures Leading(s) < |s| ==> Leading(s) + Trailing(s) < |s|
  {
    hide IsSpace;
    var n, m := Leading(s), Trailing(s);
    assert s[..|s|] == s;
    forall i | 0 <= i < n
      ensures IsSpace(s[i])
    {
      assert IsSpace(s[..n][i]);
    }
    forall i | |s| - m <= i < |s|
      ensures IsSpace(s[i])
    {
      assert IsSpace(s[|s| - m..][i - (|s| - m)]);
    }
  }

  // ---------------------------------------------------------------------- words

  ghost predicate IsWord(w: string) {
    w != "" && forall i | 0 <= i < |w| :: !IsSpace(w[i])
  }

  function WordLength(s: string): (n: nat)
    ensures n <= |s| && (forall i | 0 <= i < n :: !IsSpace(s[i])) && (n < |s| ==> IsSpace(s[n]))
    ensures s != "" && !IsSpace(s[0]) ==> n > 0
  {
    if s == "" || IsSpace(s[0]) then 0 else WordLength(s[1..]) + 1
  }

  function Split(s: string): (words: seq<string>)
    ensures forall w | w in words :: IsWord(w)
    decreases |s|
  {
    if s == "" then []
    else if IsSpace(s[0]) then Split(s[1..])
    else
      var n := WordLength(s);
      [s[..n]] + Split(s[n..])
  }

  function Join(words: seq<string>): string {
    if words == [] then ""
    else if |words| == 1 then words[0]
    else words[0] + " " + Join(words[1..])
  }

  /** One more word goes to the end, after one space. */
  lemma {:induction false} JoinAppended(words: seq<string>, w: string)
    ensures Join([]) == "" && Join([w]) == w
    ensures words != [] ==> Join(words + [w]) == Join(words) + " " + w
  {
    if |words| > 1 {
      var all := words + [w];
      assert all[1..] == words[1..] + [w] && all[0] == words[0];
      JoinAppended(words[1..], w);
    } else if |words| == 1 {
      assert (words + [w])[1..] == [w] && (words + [w])[0] == words[0];
    }
  }

  lemma {:induction false} WordThenSpace(w: string, rest: string)
    requires IsWord(w) && (rest != "" ==> IsSpace(rest[0]))
    ensures WordLength(w + rest) == |w|
    decreases |w|
  {
    if |w| > 1 {
      WordThenSpace(w[1..], rest);
      assert (w + rest)[1..] == w[1..] + rest;
    } else {
      assert (w + rest)[1..] == rest;
    }
  }

  lemma SplitWord(w: string, rest: string)
    requires IsWord(w) && (rest != "" ==> IsSpace(rest[0]))
    ensures Split(w + rest) == [w] + Split(rest)
  {
    hide IsSpace;
    WordThenSpace(w, rest);
    var s := w + rest;
    assert s[0] == w[0] && s[..|w|] == w && s[|w|..] == rest;
  }

  /** Whitespace separates, however much of it there is, and a word by itself is one. */
  lemma {:induction false} SplitAtSpace(a: string, c: char, b: string)
    requires IsSpace(c)
    ensures Split(a + [c] + b) == Split(a) + Split(b)
    decreases |a|
  {
    var s := a + [c] + b;
    hide IsSpace;
    if a == "" {
      assert s[1..] == b;
    } else if IsSpace(a[0]) {
      assert s[1..] == a[1..] + [c] + b;
      SplitAtSpace(a[1..], c, b);
    } else {
      var n := WordLength(a);
      var w, rest := a[..n], a[n..];
      assert a == w + rest && s == w + (rest + [c] + b);
      SplitWord(w, rest);
      SplitWord(w, rest + [c] + b);
      SplitAtSpace(rest, c, b);
      assert [w] + (Split(rest) + Split(b)) == [w] + Split(rest) + Split(b);
    }
  }

  lemma SplitOne(w: string)
    requires IsWord(w)
    ensures Split(w) == [w] && Split("") == []
  {
    SplitWord(w, "");
    assert w + "" == w;
  }

  /** Splitting the join of words gives the words back. */
  lemma {:induction false} SplitJoin(words: seq<string>)
    requires forall w | w in words :: IsWord(w)
    ensures Split(Join(words)) == words
  {
    if words != [] {
      assert words[0] in words;
      SpaceFacts();
      hide IsSpace, IsWord;
      if |words| == 1 {
        SplitWord(words[0], "");
        assert words[0] + "" == words[0] && words == [words[0]];
      } else {
        var rest := " " + Join(words[1..]);
        SplitWord(words[0], rest);
        assert Join(words) == words[0] + rest;
        SplitJoin(words[1..]);
        assert rest[0] == ' ' && rest[1..] == Join(words[1..]);
        assert words == [words[0]] + words[1..];
      }
    }
  }

  lemma {:induction false} BlankIffNoWords(s: string)
    ensures Blank(s) <==> Split(s) == []
    decreases |s|
  {
    if s != "" && IsSpace(s[0]) {
      BlankIffNoWords(s[1..]);
      assert s == [s[0]] + s[1..];
    }
  }
}
