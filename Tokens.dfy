/**
 The free-standing helpers of the word-level Markov generator: splitting a
 text into tokens on runs of whitespace, joining tokens back with a single
 space, and picking one element of a list with an injected random draw.
 */
module Tokens {

  datatype Option<T> = None | Some(value: T)

  /** A character of the `\s` class of JavaScript regular expressions. */
  predicate IsSpace(c: char) {
    var k := c as int;
    || k == 0x09 || k == 0x0A || k == 0x0B || k == 0x0C || k == 0x0D || k == 0x20
    || k == 0xA0 || k == 0x1680 || (0x2000 <= k <= 0x200A) || k == 0x2028 || k == 0x2029
    || k == 0x202F || k == 0x205F || k == 0x3000 || k == 0xFEFF
  }

  /** A string holding no whitespace at all. */
  predicate NoSpace(s: string) {
    forall i :: 0 <= i < |s| ==> !IsSpace(s[i])
  }

  /** Length of the longest prefix of `s` holding no whitespace. */
  function WordLength(s: string): (k: nat)
    ensures k <= |s|
  {
    if s == [] || IsSpace(s[0]) then 0 else 1 + WordLength(s[1..])
  }

  /** The word prefix holds no whitespace and ends at whitespace or at the end of the text. */
  lemma {:induction false} WordLengthMaximal(s: string)
    ensures NoSpace(s[..WordLength(s)])
    ensures WordLength(s) < |s| ==> IsSpace(s[WordLength(s)])
  {
    if s != [] && !IsSpace(s[0]) {
      WordLengthMaximal(s[1..]);
      assert s[..WordLength(s)] == [s[0]] + s[1..][..WordLength(s[1..])];
    }
  }

  /** A word followed by whitespace is exactly the word prefix. */
  lemma {:induction false} WordLengthOfWord(t: string, rest: string)
    requires NoSpace(t)
    requires rest != [] && IsSpace(rest[0])
    ensures WordLength(t + rest) == |t|
  {
    if t != [] {
      assert (t + rest)[1..] == t[1..] + rest;
      WordLengthOfWord(t[1..], rest);
    } else {
      assert t + rest == rest;
    }
  }

  /** Length of the longest prefix of `s` made of whitespace only. */
  function SpaceLength(s: string): (k: nat)
    ensures k <= |s|
  {
    if s == [] || !IsSpace(s[0]) then 0 else 1 + SpaceLength(s[1..])
  }

  /** The whitespace prefix ends at a non-space or at the end of the text. */
  lemma {:induction false} SpaceLengthMaximal(s: string)
    ensures SpaceLength(s) < |s| ==> !IsSpace(s[SpaceLength(s)])
  {
    if s != [] && IsSpace(s[0]) {
      SpaceLengthMaximal(s[1..]);
    }
  }

  /** A text ending with a non-space is not whitespace only. */
  lemma {:induction false} SpaceLengthBeforeEnd(s: string)
    requires s != [] && !IsSpace(s[|s| - 1])
    ensures SpaceLength(s) < |s|
  {
    if IsSpace(s[0]) {
      assert s[1..][|s[1..]| - 1] == s[|s| - 1];
      SpaceLengthBeforeEnd(s[1..]);
    }
  }

  /** A run of whitespace followed by a non-space, or by the end of the text, is exactly the whitespace prefix. */
  lemma {:induction false} SpaceLengthOfGap(gap: string, rest: string)
    requires forall i :: 0 <= i < |gap| ==> IsSpace(gap[i])
    requires rest == [] || !IsSpace(rest[0])
    ensures SpaceLength(gap + rest) == |gap|
  {
    if gap != [] {
      assert (gap + rest)[1..] == gap[1..] + rest;
      SpaceLengthOfGap(gap[1..], rest);
    } else {
      assert gap + rest == rest;
    }
  }

  /**
   A token sequence as splitting on runs of whitespace produces it: at least
   one token, no token holding whitespace, and no empty token except possibly
   the first (the text starts with whitespace) and the last (it ends with it).
   */
  predicate WellFormed(toks: seq<string>) {
    && |toks| >= 1
    && (forall i :: 0 <= i < |toks| ==> NoSpace(toks[i]))
    && (forall i :: 0 < i < |toks| - 1 ==> toks[i] != "")
  }

  /**
   `str.split(/\s+/)`: the pieces of `s` between maximal runs of whitespace.
   A text that begins (ends) with whitespace yields an empty first (last)
   token, and the empty text yields the single empty token.
   */
  function Tokenize(s: string): (toks: seq<string>)
    ensures |toks| >= 1
    decreases |s|
  {
    var w := WordLength(s);
    if w == |s| then [s]
    else
      var rest := s[w..];
      var gap := SpaceLength(rest);
      assert gap >= 1 by { WordLengthMaximal(s); }
      [s[..w]] + Tokenize(rest[gap..])
  }

  /**
   Splitting yields a well-formed token sequence, whose first token is
   non-empty when the text begins with a non-space and whose last token is
   non-empty when the text ends with one.
   */
  lemma {:induction false} TokenizeWellFormed(s: string)
    ensures WellFormed(Tokenize(s))
    ensures s != [] && !IsSpace(s[0]) ==> Tokenize(s)[0] != ""
    ensures s != [] && !IsSpace(s[|s| - 1]) ==> Tokenize(s)[|Tokenize(s)| - 1] != ""
    decreases |s|
  {
    TokenizeLast(s);
    var w := WordLength(s);
    WordLengthMaximal(s);
    if w == |s| {
      assert s[..w] == s;
    } else {
      var rest := s[w..];
      var gap := SpaceLength(rest);
      SpaceLengthMaximal(rest);
      assert IsSpace(rest[0]);
      var tail := rest[gap..];
      TokenizeWellFormed(tail);
      var toks, later := Tokenize(s), Tokenize(tail);
      assert toks == [s[..w]] + later;
      assert tail != [] ==> !IsSpace(tail[0]);
      forall i | 0 <= i < |toks| ensures NoSpace(toks[i]) {
        if i > 0 {
          assert toks[i] == later[i - 1];
        }
      }
      forall i | 0 < i < |toks| - 1 ensures toks[i] != "" {
        assert toks[i] == later[i - 1];
      }
    }
  }

  /** The last token is non-empty when the text ends with a non-space. */
  lemma {:induction false} TokenizeLast(s: string)
    ensures s != [] && !IsSpace(s[|s| - 1]) ==> Tokenize(s)[|Tokenize(s)| - 1] != ""
    decreases |s|
  {
    if s != [] && !IsSpace(s[|s| - 1]) {
      var w := WordLength(s);
      if w < |s| {
        var rest := s[w..];
        var c := s[|s| - 1];
        assert rest[|rest| - 1] == c;
        SpaceLengthBeforeEnd(rest);
        var tail := rest[SpaceLength(rest)..];
        assert tail != [] && tail[|tail| - 1] == c;
        TokenizeLast(tail);
        TokenizeStep(s, Tokenize(tail));
      }
    }
  }

  /** A text holding whitespace splits into its word prefix followed by the tokens after the whitespace run. */
  lemma TokenizeStep(s: string, later: seq<string>)
    requires WordLength(s) < |s|
    requires var rest := s[WordLength(s)..]; later == Tokenize(rest[SpaceLength(rest)..])
    ensures Tokenize(s) == [s[..WordLength(s)]] + later
    ensures Tokenize(s)[|Tokenize(s)| - 1] == later[|later| - 1]
  {
  }

  /** A text splits into itself alone exactly when it holds no whitespace. */
  lemma TokenizeSingle(s: string)
    ensures Tokenize(s) == [s] <==> NoSpace(s)
  {
    TokenizeWellFormed(s);
    WordLengthMaximal(s);
    if WordLength(s) < |s| {
      assert IsSpace(s[WordLength(s)]);
    }
  }

  /**
   A word, then a non-empty run of whitespace, then the rest of the text
   (empty, or starting with a non-space): the word is the first token and the
   rest is split on. With `TokenizeSingle` this fixes the split of every text:
   any run of one or more `\s` characters, tabs and line breaks included,
   separates like a single space.
   */
  lemma TokenizeGap(t: string, gap: string, rest: string)
    requires NoSpace(t)
    requires gap != [] && forall i :: 0 <= i < |gap| ==> IsSpace(gap[i])
    requires rest == [] || !IsSpace(rest[0])
    ensures Tokenize(t + gap + rest) == [t] + Tokenize(rest)
  {
    var s := t + gap + rest;
    assert s == t + (gap + rest);
    WordLengthOfWord(t, gap + rest);
    assert s[..|t|] == t;
    assert s[|t|..] == gap + rest;
    SpaceLengthOfGap(gap, rest);
    assert (gap + rest)[|gap|..] == rest;
  }

  /** `tokens.join(" ")`: the tokens in order, one space between neighbours. */
  function Join(toks: seq<string>): string {
    if |toks| == 0 then ""
    else if |toks| == 1 then toks[0]
    else toks[0] + " " + Join(toks[1..])
  }

  /** One more token in front of a non-empty join adds it and one space. */
  lemma JoinCons(t: string, rest: seq<string>)
    requires rest != []
    ensures Join([t] + rest) == t + " " + Join(rest)
  {
    assert ([t] + rest)[1..] == rest;
  }

  /** A join is empty for no tokens, and otherwise begins with the first token and ends with the last. */
  lemma {:induction false} JoinEnds(toks: seq<string>)
    ensures toks == [] ==> Join(toks) == ""
    ensures toks != [] ==> toks[0] <= Join(toks)
    ensures toks != [] ==> var last, r := toks[|toks| - 1], Join(toks);
      |last| <= |r| && r[|r| - |last|..] == last
  {
    if |toks| >= 2 {
      var j := Join(toks[1..]);
      JoinEnds(toks[1..]);
      assert Join(toks) == toks[0] + " " + j;
      assert (toks[0] + " " + j)[|toks[0]| + 1..] == j;
    }
  }

  /** The text of well-formed tokens joined by one space begins with a non-space, or is empty. */
  lemma {:induction false} JoinStart(toks: seq<string>)
    requires |toks| >= 1
    requires forall i :: 0 <= i < |toks| ==> NoSpace(toks[i])
    requires |toks| >= 2 ==> toks[0] != ""
    ensures Join(toks) == [] || !IsSpace(Join(toks)[0])
  {
    if |toks| >= 2 {
      assert Join(toks)[0] == toks[0][0];
    }
  }

  /** Splitting undoes joining for every token sequence that splitting can produce. */
  lemma {:induction false} TokenizeJoin(toks: seq<string>)
    requires WellFormed(toks)
    ensures Tokenize(Join(toks)) == toks
  {
    if |toks| >= 2 {
      var t, tail := toks[0], toks[1..];
      var j := Join(tail);
      var s := Join(toks);
      assert s == t + " " + j;
      assert s[..|t|] == t;
      var rest := s[|t|..];
      assert rest == " " + j;
      assert WordLength(s) == |t| by {
        assert s == t + rest;
        WordLengthOfWord(t, rest);
      }
      assert SpaceLength(rest) == 1 by {
        JoinStart(tail);
      }
      assert rest[1..] == j;
      assert Tokenize(s) == [t] + Tokenize(j);
      assert WellFormed(tail);
      TokenizeJoin(tail);
      assert toks == [t] + tail;
    } else {
      TokenizeSingle(toks[0]);
    }
  }

  /** Every window of at least one token of a well-formed sequence is well-formed. */
  lemma WindowWellFormed(toks: seq<string>, i: nat, len: nat)
    requires WellFormed(toks)
    requires 1 <= len && i + len <= |toks|
    ensures WellFormed(toks[i..i + len])
  {
    var w := toks[i..i + len];
    forall k | 0 < k < |w| - 1 ensures w[k] != "" {
      assert w[k] == toks[i + k];
    }
  }

  /**
   `choice(arr)`: the element at the index drawn from the random source,
   reduced into range, or nothing (JavaScript's `undefined`) for an empty
   list. Every element can be drawn: an index already in range picks itself.
   */
  function Choice<T>(arr: seq<T>, draw: nat): (r: Option<T>)
    ensures r.None? <==> |arr| == 0
    ensures r.Some? ==> r.value in arr
    ensures draw < |arr| ==> r == Some(arr[draw])
  {
    if |arr| == 0 then None else Some(arr[draw % |arr|])
  }

  /** Splitting a text that begins with whitespace keeps an empty first token. */
  lemma LeadingSpaceExample()
    ensures Tokenize(" the cat") == ["", "the", "cat"]
  {
    var a := ["", "the", "cat"];
    LettersNoSpace("the");
    LettersNoSpace("cat");
    assert WellFormed(a);
    assert Join(a[1..]) == "the cat";
    assert Join(a) == " the cat";
    TokenizeJoin(a);
  }

  /** Splitting a text that ends with whitespace keeps an empty last token. */
  lemma TrailingSpaceExample()
    ensures Tokenize("the cat ") == ["the", "cat", ""]
  {
    var a := ["the", "cat", ""];
    LettersNoSpace("the");
    LettersNoSpace("cat");
    assert WellFormed(a);
    assert Join(a[1..]) == "cat ";
    assert Join(a) == "the cat ";
    TokenizeJoin(a);
  }

  /** A tab between spaces separates two words like one space does. */
  lemma MixedGapExample()
    ensures Tokenize("the \t cat") == ["the", "cat"]
  {
    LettersNoSpace("the");
    LettersNoSpace("cat");
    assert "the \t cat" == "the" + " \t " + "cat";
    TokenizeGap("the", " \t ", "cat");
    TokenizeSingle("cat");
  }

  /** A word of lower-case ASCII letters holds no whitespace. */
  lemma LettersNoSpace(s: string)
    requires forall i :: 0 <= i < |s| ==> 'a' <= s[i] <= 'z'
    ensures NoSpace(s)
  {
  }
}
