/**
 The trained model of the word-level Markov generator as values: the
 transition table that feeding a line builds, the random walk that
 generation takes over it, and what both promise.
 */
module Chain {
  import opened Tokens

  /** Transition table: space-joined n-gram to the tokens observed after it, in order, duplicates kept. */
  type Ngrams = map<string, seq<string>>

  /** The list kept under `key`, the empty list when there is none. */
  function Lookup(m: Ngrams, key: string): seq<string> {
    if key in m then m[key] else []
  }

  /** Pushing `next` onto the list under `key`, creating that list first when the key is absent. */
  function Record(m: Ngrams, key: string, next: string): (m': Ngrams)
    ensures m'.Keys == m.Keys + {key}
  {
    m[key := Lookup(m, key) + [next]]
  }

  /** Creating the list when the key is absent and then pushing onto it is one `Record`. */
  lemma CreateThenPush(m: Ngrams, key: string, next: string)
    ensures var created := if key in m then m else m[key := []];
      created[key := created[key] + [next]] == Record(m, key, next)
  {
  }

  /** A push appends `next` to the list under `key` and leaves every other list as it was. */
  lemma RecordLookup(m: Ngrams, key: string, next: string, k: string)
    ensures Lookup(Record(m, key, next), k) == Lookup(m, k) + (if k == key then [next] else [])
  {
  }

  /** The n-gram key of the window of `n` tokens starting at token `i`. */
  function Window(toks: seq<string>, n: nat, i: nat): (key: string)
    requires i + n <= |toks|
    ensures n == 1 ==> key == toks[i]
  {
    assert n == 1 ==> toks[i..i + n] == [toks[i]];
    Join(toks[i..i + n])
  }

  /**
   The table after the first `k` windows of a line are recorded: window `i`
   pushes token `i + n` under the key of tokens `i` to `i + n - 1`.
   */
  function AddWindows(m: Ngrams, toks: seq<string>, n: nat, k: nat): (m': Ngrams)
    requires k + n <= |toks|
    ensures m.Keys <= m'.Keys
  {
    if k == 0 then m
    else Record(AddWindows(m, toks, n, k - 1), Window(toks, n, k - 1), toks[k - 1 + n])
  }

  /** Recording one more window, with the next window count given by name. */
  lemma AddWindowsNext(m: Ngrams, toks: seq<string>, n: nat, k: nat, k': nat)
    requires k' == k + 1 && k' + n <= |toks|
    ensures AddWindows(m, toks, n, k') == Record(AddWindows(m, toks, n, k), Window(toks, n, k), toks[k + n])
  {
    assert k' - 1 == k && k' - 1 + n == k + n;
  }

  /** The tokens that follow `key` among the first `k` windows of a line, in the line's order. */
  function Successors(toks: seq<string>, n: nat, key: string, k: nat): seq<string>
    requires k + n <= |toks|
  {
    if k == 0 then []
    else Successors(toks, n, key, k - 1) + (if Window(toks, n, k - 1) == key then [toks[k - 1 + n]] else [])
  }

  /** A token follows `key` in the line exactly when some window with that key is followed by it. */
  lemma {:induction false} SuccessorsMembers(toks: seq<string>, n: nat, key: string, k: nat, x: string)
    requires k + n <= |toks|
    ensures x in Successors(toks, n, key, k) <==>
            exists i :: 0 <= i < k && Window(toks, n, i) == key && toks[i + n] == x
  {
    if x in Successors(toks, n, key, k) {
      SuccessorFrom(toks, n, key, k, x);
    }
    if exists i :: 0 <= i < k && Window(toks, n, i) == key && toks[i + n] == x {
      var i :| 0 <= i < k && Window(toks, n, i) == key && toks[i + n] == x;
      SuccessorAt(toks, n, key, k, i);
    }
  }

  /** Every successor of `key` is the token after some window with that key. */
  lemma {:induction false} SuccessorFrom(toks: seq<string>, n: nat, key: string, k: nat, x: string)
    requires k + n <= |toks|
    requires x in Successors(toks, n, key, k)
    ensures exists i :: 0 <= i < k && Window(toks, n, i) == key && toks[i + n] == x
  {
    var j := k - 1;
    var left := Successors(toks, n, key, j);
    if x in left {
      SuccessorFrom(toks, n, key, j, x);
      var i :| 0 <= i < j && Window(toks, n, i) == key && toks[i + n] == x;
      assert 0 <= i < k;
    } else {
      assert Window(toks, n, j) == key && toks[j + n] == x;
    }
  }

  /** The token after a window with key `key` is among the successors of `key`. */
  lemma {:induction false} SuccessorAt(toks: seq<string>, n: nat, key: string, k: nat, i: nat)
    requires k + n <= |toks|
    requires i < k && Window(toks, n, i) == key
    ensures toks[i + n] in Successors(toks, n, key, k)
  {
    var j := k - 1;
    if i < j {
      SuccessorAt(toks, n, key, j, i);
    } else {
      assert i == j;
    }
  }

  /**
   Recording windows appends, for each key, exactly that key's successors in
   the line to what the table held before.
   */
  lemma {:induction false} AddWindowsLookup(m: Ngrams, toks: seq<string>, n: nat, k: nat, key: string)
    requires k + n <= |toks|
    ensures Lookup(AddWindows(m, toks, n, k), key) == Lookup(m, key) + Successors(toks, n, key, k)
  {
    if k > 0 {
      var prev := AddWindows(m, toks, n, k - 1);
      var w, x := Window(toks, n, k - 1), toks[k - 1 + n];
      var left, here := Successors(toks, n, key, k - 1), if w == key then [x] else [];
      AddWindowsLookup(m, toks, n, k - 1, key);
      RecordLookup(prev, w, x, key);
      assert Successors(toks, n, key, k) == left + here;
      AppendAssoc(Lookup(m, key), left, here);
    }
  }

  /** Concatenation of lists is associative. */
  lemma AppendAssoc(a: seq<string>, b: seq<string>, c: seq<string>)
    ensures a + (b + c) == (a + b) + c
  {
  }

  /** A key is present after recording exactly when it was present before or the line has a window with it. */
  lemma {:induction false} AddWindowsKeys(m: Ngrams, toks: seq<string>, n: nat, k: nat, key: string)
    requires k + n <= |toks|
    ensures key in AddWindows(m, toks, n, k) <==> key in m || Successors(toks, n, key, k) != []
  {
    if k > 0 {
      var w := Window(toks, n, k - 1);
      var left, here := Successors(toks, n, key, k - 1), if w == key then [toks[k - 1 + n]] else [];
      AddWindowsKeys(m, toks, n, k - 1, key);
      assert Successors(toks, n, key, k) == left + here;
      assert (left + here != []) <==> (left != [] || here != []);
    }
  }

  /** Feeding is append-only: every key stays, and its old list is a prefix of its new list. */
  lemma AddWindowsAppendOnly(m: Ngrams, toks: seq<string>, n: nat, k: nat)
    requires k + n <= |toks|
    ensures forall key :: key in m ==> key in AddWindows(m, toks, n, k) && m[key] <= AddWindows(m, toks, n, k)[key]
  {
    forall key | key in m
      ensures key in AddWindows(m, toks, n, k) && m[key] <= AddWindows(m, toks, n, k)[key]
    {
      AddWindowsLookup(m, toks, n, k, key);
      AddWindowsKeys(m, toks, n, k, key);
    }
  }

  /** The token after window `i` is on the list of that window's key once the window is recorded. */
  lemma WindowRecorded(m: Ngrams, toks: seq<string>, n: nat, k: nat, i: nat)
    requires i < k && k + n <= |toks|
    ensures Window(toks, n, i) in AddWindows(m, toks, n, k)
    ensures toks[i + n] in AddWindows(m, toks, n, k)[Window(toks, n, i)]
  {
    var key := Window(toks, n, i);
    SuccessorsMembers(toks, n, key, k, toks[i + n]);
    AddWindowsLookup(m, toks, n, k, key);
    AddWindowsKeys(m, toks, n, k, key);
  }

  /** With order 1, the first three windows of "the cat sat on the mat" each file one successor. */
  lemma FeedExampleStart()
    ensures AddWindows(map[], ["the", "cat", "sat", "on", "the", "mat"], 1, 3)
      == map["the" := ["cat"], "cat" := ["sat"], "sat" := ["on"]]
  {
    var a := ["the", "cat", "sat", "on", "the", "mat"];
    var m1 := map["the" := ["cat"]];
    var m2 := m1["cat" := ["sat"]];
    assert AddWindows(map[], a, 1, 1) == m1 by {
      assert "the" == a[0];
      assert [] + ["cat"] == ["cat"];
    }
    assert AddWindows(map[], a, 1, 2) == m2 by {
      assert "cat" == a[1] && "cat" !in m1;
      assert [] + ["sat"] == ["sat"];
    }
    assert "sat" == a[2] && "sat" !in m2;
    assert [] + ["on"] == ["on"];
  }

  /** With order 1, the fourth window of "the cat sat on the mat" adds the key "on". */
  lemma FeedExampleOn()
    ensures AddWindows(map[], ["the", "cat", "sat", "on", "the", "mat"], 1, 4)
      == map["the" := ["cat"], "cat" := ["sat"], "sat" := ["on"], "on" := ["the"]]
  {
    var a := ["the", "cat", "sat", "on", "the", "mat"];
    var m3 := map["the" := ["cat"], "cat" := ["sat"], "sat" := ["on"]];
    FeedExampleStart();
    assert "on" == a[3] && "on" !in m3;
    assert [] + ["the"] == ["the"];
  }

  /** The last two words of "the cat sat on the mat" join into "the mat". */
  lemma JoinExample2()
    ensures Join(["the", "mat"]) == "the mat"
  {
    JoinCons("the", ["mat"]);
  }

  /** The last three words of "the cat sat on the mat" join into "on the mat". */
  lemma JoinExample3()
    ensures Join(["on", "the", "mat"]) == "on the mat"
  {
    JoinExample2();
    JoinCons("on", ["the", "mat"]);
  }

  /** The last four words of "the cat sat on the mat" join into "sat on the mat". */
  lemma JoinExample4()
    ensures Join(["sat", "on", "the", "mat"]) == "sat on the mat"
  {
    JoinExample3();
    JoinCons("sat", ["on", "the", "mat"]);
  }

  /** The last five words of "the cat sat on the mat" join into "cat sat on the mat". */
  lemma JoinExample5()
    ensures Join(["cat", "sat", "on", "the", "mat"]) == "cat sat on the mat"
  {
    JoinExample4();
    JoinCons("cat", ["sat", "on", "the", "mat"]);
  }

  /** The six words of "the cat sat on the mat" join back into that text. */
  lemma JoinExample6()
    ensures Join(["the", "cat", "sat", "on", "the", "mat"]) == "the cat sat on the mat"
  {
    JoinExample5();
    JoinCons("the", ["cat", "sat", "on", "the", "mat"]);
  }

  /** The six words of "the cat sat on the mat" are a split-shaped list that joins back into that text. */
  lemma FeedExampleTokens(a: seq<string>)
    requires a == ["the", "cat", "sat", "on", "the", "mat"]
    ensures Join(a) == "the cat sat on the mat" && Tokenize(Join(a)) == a
  {
    LettersNoSpace("the");
    LettersNoSpace("cat");
    LettersNoSpace("sat");
    LettersNoSpace("on");
    LettersNoSpace("mat");
    assert WellFormed(a);
    TokenizeJoin(a);
    JoinExample6();
  }

  /** With order 1, the five windows of the six words of "the cat sat on the mat" give the whole table. */
  lemma FeedExampleTable()
    ensures var a := ["the", "cat", "sat", "on", "the", "mat"];
      AddWindows(map[], a, 1, 5)
        == map["the" := ["cat", "mat"], "cat" := ["sat"], "sat" := ["on"], "on" := ["the"]]
  {
    var a := ["the", "cat", "sat", "on", "the", "mat"];
    var m4 := map["the" := ["cat"], "cat" := ["sat"], "sat" := ["on"], "on" := ["the"]];
    FeedExampleOn();
    AddWindowsNext(map[], a, 1, 4, 5);
    assert "the" == a[4] && "the" in m4 && m4["the"] == ["cat"];
    assert ["cat"] + ["mat"] == ["cat", "mat"];
  }

  /**
   With order 1, feeding "the cat sat on the mat" gives the beginning "the",
   files "cat" and later "mat" under "the", one successor under each middle
   word, and no key for the last word.
   */
  lemma FeedExample()
    ensures var toks := Tokenize("the cat sat on the mat");
      && toks == ["the", "cat", "sat", "on", "the", "mat"]
      && Join(toks[..1]) == "the"
      && AddWindows(map[], toks, 1, |toks| - 1)
        == map["the" := ["cat", "mat"], "cat" := ["sat"], "sat" := ["on"], "on" := ["the"]]
  {
    var a := ["the", "cat", "sat", "on", "the", "mat"];
    FeedExampleTokens(a);
    FeedExampleTable();
    assert a[..1] == ["the"];
  }

  /** Every key of the table maps to a non-empty list. */
  predicate NonEmptyLists(m: Ngrams) {
    forall key :: key in m ==> m[key] != []
  }

  /** Recording windows keeps every list non-empty, since a list is created only right before a push. */
  lemma {:induction false} AddWindowsNonEmpty(m: Ngrams, toks: seq<string>, n: nat, k: nat)
    requires k + n <= |toks|
    requires NonEmptyLists(m)
    ensures NonEmptyLists(AddWindows(m, toks, n, k))
  {
    if k > 0 {
      AddWindowsNonEmpty(m, toks, n, k - 1);
    }
  }

  /** The number of transitions the table holds: the lengths of all its lists added up. */
  ghost function TotalLength(m: Ngrams): nat
    decreases |m|
  {
    if m == map[] then 0
    else
      var key :| key in m;
      |m[key]| + TotalLength(m - {key})
  }

  /** Any key can be taken out first when the lengths are added up. */
  lemma {:induction false} TotalLengthRemove(m: Ngrams, key: string)
    requires key in m
    ensures TotalLength(m) == |m[key]| + TotalLength(m - {key})
    decreases |m|
  {
    var first :| first in m && TotalLength(m) == |m[first]| + TotalLength(m - {first});
    if first != key {
      var rest := m - {first};
      assert key in rest;
      TotalLengthRemove(rest, key);
      assert first in m - {key};
      TotalLengthRemove(m - {key}, first);
      assert rest - {key} == (m - {key}) - {first};
    }
  }

  /** One push adds exactly one transition. */
  lemma RecordTotal(m: Ngrams, key: string, next: string)
    ensures TotalLength(Record(m, key, next)) == TotalLength(m) + 1
  {
    var m' := Record(m, key, next);
    TotalLengthRemove(m', key);
    if key in m {
      TotalLengthRemove(m, key);
      assert m' - {key} == m - {key};
    } else {
      assert m' - {key} == m;
    }
  }

  /** A line of `|toks|` tokens adds exactly `|toks| - n` transitions. */
  lemma {:induction false} AddWindowsTotal(m: Ngrams, toks: seq<string>, n: nat, k: nat)
    requires k + n <= |toks|
    ensures TotalLength(AddWindows(m, toks, n, k)) == TotalLength(m) + k
  {
    if k > 0 {
      AddWindowsTotal(m, toks, n, k - 1);
      RecordTotal(AddWindows(m, toks, n, k - 1), Window(toks, n, k - 1), toks[k - 1 + n]);
    }
  }

  /** Feeding the same line twice records each of its observations twice, in the same order. */
  lemma FeedTwice(m: Ngrams, toks: seq<string>, n: nat, key: string)
    requires n <= |toks|
    ensures var k := |toks| - n;
      Lookup(AddWindows(AddWindows(m, toks, n, k), toks, n, k), key)
        == Lookup(m, key) + Successors(toks, n, key, k) + Successors(toks, n, key, k)
  {
    var k := |toks| - n;
    AddWindowsLookup(m, toks, n, k, key);
    AddWindowsLookup(AddWindows(m, toks, n, k), toks, n, k, key);
  }

  /** A context of order `n`: the single-space join of `n` tokens as splitting produces them. */
  ghost predicate IsContext(s: string, n: nat) {
    exists toks :: WellFormed(toks) && |toks| == n && Join(toks) == s
  }

  /** A context of order `n` splits back into exactly its `n` tokens. */
  lemma ContextTokens(s: string, n: nat)
    requires IsContext(s, n)
    ensures |Tokenize(s)| == n && Join(Tokenize(s)) == s
  {
    var toks :| WellFormed(toks) && |toks| == n && Join(toks) == s;
    TokenizeJoin(toks);
  }

  /**
   What training promises about a model: every list is non-empty, and every
   key and every beginning is a context of the model's order.
   */
  ghost predicate WellTrained(n: nat, m: Ngrams, starts: seq<string>) {
    && NonEmptyLists(m)
    && (forall key :: key in m ==> IsContext(key, n))
    && (forall i :: 0 <= i < |starts| ==> IsContext(starts[i], n))
  }

  /** The key of every window of order at least one of a split text is a context of that order. */
  lemma WindowIsContext(toks: seq<string>, n: nat, i: nat)
    requires WellFormed(toks)
    requires 1 <= n && i + n <= |toks|
    ensures IsContext(Window(toks, n, i), n)
  {
    WindowWellFormed(toks, i, n);
    var w := toks[i..i + n];
    assert WellFormed(w) && |w| == n && Join(w) == Window(toks, n, i);
  }

  /** Recording windows of a split line of order at least one keeps every key a context of that order. */
  lemma {:induction false} AddWindowsContexts(m: Ngrams, toks: seq<string>, n: nat, k: nat)
    requires WellFormed(toks)
    requires 1 <= n && k + n <= |toks|
    requires forall key :: key in m ==> IsContext(key, n)
    ensures forall key :: key in AddWindows(m, toks, n, k) ==> IsContext(key, n)
  {
    if k > 0 {
      AddWindowsContexts(m, toks, n, k - 1);
      WindowIsContext(toks, n, k - 1);
    }
  }

  /**
   Feeding a long enough line to a well-trained model of order at least one
   leaves it well-trained.
   */
  lemma FeedKeepsWellTrained(n: nat, m: Ngrams, starts: seq<string>, toks: seq<string>)
    requires WellFormed(toks)
    requires 1 <= n <= |toks|
    requires WellTrained(n, m, starts)
    ensures WellTrained(n, AddWindows(m, toks, n, |toks| - n), starts + [Join(toks[..n])])
  {
    var k := |toks| - n;
    var b := Join(toks[..n]);
    AddWindowsNonEmpty(m, toks, n, k);
    AddWindowsContexts(m, toks, n, k);
    StartIsContext(toks, n);
    ContextsAppend(starts, b, n);
  }

  /** The first n-gram of a split line of at least `n >= 1` tokens is a context of order `n`. */
  lemma StartIsContext(toks: seq<string>, n: nat)
    requires WellFormed(toks)
    requires 1 <= n <= |toks|
    ensures IsContext(Join(toks[..n]), n)
  {
    WindowIsContext(toks, n, 0);
    assert toks[..n] == toks[0..0 + n];
  }

  /** Appending a context to a list of contexts gives a list of contexts. */
  lemma ContextsAppend(starts: seq<string>, b: string, n: nat)
    requires forall i :: 0 <= i < |starts| ==> IsContext(starts[i], n)
    requires IsContext(b, n)
    ensures forall i :: 0 <= i < |starts + [b]| ==> IsContext((starts + [b])[i], n)
  {
    forall i | 0 <= i < |starts + [b]| ensures IsContext((starts + [b])[i], n) {
      if i < |starts| {
        assert (starts + [b])[i] == starts[i];
      }
    }
  }

  /**
   `output.slice(output.length - n, output.length)`: the last `n` tokens, or
   fewer when the output is shorter, following the negative-start rule of
   JavaScript's `slice` (a negative start counts back from the end).
   */
  function LastN(out: seq<string>, n: nat): (r: seq<string>)
    ensures |r| <= |out| && r == out[|out| - |r|..]
    ensures n <= |out| ==> |r| == n
    ensures n > |out| ==> |r| == if 2 * |out| >= n then n - |out| else |out|
  {
    var start := |out| - n;
    var from := if start >= 0 then start else if |out| + start >= 0 then |out| + start else 0;
    out[from..]
  }

  /** The token one step appends: the drawn element of the list, "" for an empty list (joined `undefined`). */
  function Pick(list: seq<string>, draw: nat): (tok: string)
    ensures list != [] ==> tok in list
    ensures list == [] ==> tok == ""
  {
    match Choice(list, draw)
    case Some(x) => x
    case None => ""
  }

  /**
   The rest of the generation loop: with `fuel` iterations left, step on
   while the current n-gram has an entry, appending a token drawn with the
   `next`th draw and making the last `n` output tokens the new n-gram.
   */
  function Walk(m: Ngrams, n: nat, out: seq<string>, current: string, fuel: nat,
                draw: nat -> nat, next: nat): seq<string>
    decreases fuel
  {
    if fuel == 0 || current !in m then out
    else
      var out' := out + [Pick(m[current], draw(next))];
      Walk(m, n, out', Join(LastN(out', n)), fuel - 1, draw, next + 1)
  }

  /** A walk stops with no fuel or at an n-gram without an entry, and otherwise takes one step. */
  lemma WalkOnce(m: Ngrams, n: nat, out: seq<string>, current: string, fuel: nat, draw: nat -> nat, next: nat)
    ensures fuel == 0 || current !in m ==> Walk(m, n, out, current, fuel, draw, next) == out
    ensures fuel > 0 && current in m ==>
      var out' := out + [Pick(m[current], draw(next))];
      Walk(m, n, out, current, fuel, draw, next) == Walk(m, n, out', Join(LastN(out', n)), fuel - 1, draw, next + 1)
  {
  }

  /**
   The tokens of one generation: the first draw picks a beginning, the walk
   takes at most `max` steps from its tokens. No beginning, no generation.
   */
  function Generation(n: nat, max: nat, m: Ngrams, starts: seq<string>, draw: nat -> nat): (r: Option<seq<string>>)
    ensures r.None? <==> starts == []
  {
    match Choice(starts, draw(0))
    case None => None
    case Some(b) => Some(Walk(m, n, Tokenize(b), b, max, draw, 1))
  }

  /**
   The n-gram consulted before output token `j` is appended, in a walk that
   began with the `len` tokens of `start`: `start` itself for the first
   step, afterwards the joined last `n` tokens output so far.
   */
  function ContextAt(n: nat, start: string, len: nat, out: seq<string>, j: nat): string
    requires len <= j <= |out|
  {
    if j == len then start else Join(LastN(out[..j], n))
  }

  /** `tok` is what a step can append from `list`. */
  predicate CanPick(list: seq<string>, tok: string) {
    if list == [] then tok == "" else tok in list
  }

  /** Output token `j` was appended from the list of the n-gram current at that step. */
  predicate Stepped(m: Ngrams, n: nat, start: string, len: nat, out: seq<string>, j: nat)
    requires len <= j < |out|
  {
    var ctx := ContextAt(n, start, len, out, j);
    ctx in m && CanPick(m[ctx], out[j])
  }

  /**
   The outputs a walk of at most `max` steps can give from `start`: the tokens
   of `start`, then tokens each appended from the list of the n-gram current
   at that step, stopping early only at an n-gram without an entry.
   */
  predicate IsWalk(m: Ngrams, n: nat, max: nat, start: string, out: seq<string>) {
    var init := Tokenize(start);
    var len := |init|;
    && init <= out
    && |out| <= len + max
    && (forall j :: len <= j < |out| ==> Stepped(m, n, start, len, out, j))
    && (|out| < len + max ==> ContextAt(n, start, len, out, |out|) !in m)
  }

  /** The n-gram before token `j` depends only on the tokens before `j`. */
  lemma ContextAtPrefix(n: nat, start: string, len: nat, out: seq<string>, r: seq<string>, j: nat)
    requires out <= r
    requires len <= j <= |out|
    ensures ContextAt(n, start, len, out, j) == ContextAt(n, start, len, r, j)
  {
    assert out[..j] == r[..j];
  }

  /** One step of the walk appends a token its current n-gram allows. */
  lemma WalkStep(m: Ngrams, n: nat, start: string, len: nat, out: seq<string>, tok: string, r: seq<string>)
    requires len <= |out|
    requires ContextAt(n, start, len, out, |out|) in m
    requires CanPick(m[ContextAt(n, start, len, out, |out|)], tok)
    requires out + [tok] <= r
    ensures Stepped(m, n, start, len, r, |out|)
  {
    ContextAtPrefix(n, start, len, out, r, |out|);
    assert r[|out|] == (out + [tok])[|out|];
  }

  /** Every remaining walk keeps what is already output and steps only as `IsWalk` allows. */
  lemma {:induction false} WalkSteps(m: Ngrams, n: nat, start: string, len: nat, out: seq<string>,
                                     fuel: nat, draw: nat -> nat, next: nat)
    requires len <= |out|
    ensures var r := Walk(m, n, out, ContextAt(n, start, len, out, |out|), fuel, draw, next);
      && out <= r && |r| <= |out| + fuel
      && (forall j :: |out| <= j < |r| ==> Stepped(m, n, start, len, r, j))
      && (|r| < |out| + fuel ==> ContextAt(n, start, len, r, |r|) !in m)
    decreases fuel
  {
    var current := ContextAt(n, start, len, out, |out|);
    if fuel > 0 && current in m {
      var r := Walk(m, n, out, current, fuel, draw, next);
      var tok := Pick(m[current], draw(next));
      var out' := out + [tok];
      var current' := ContextAt(n, start, len, out', |out'|);
      assert current' == Join(LastN(out', n)) by {
        assert out'[..|out'|] == out';
      }
      var r' := Walk(m, n, out', current', fuel - 1, draw, next + 1);
      assert r == r';
      WalkSteps(m, n, start, len, out', fuel - 1, draw, next + 1);
      WalkStep(m, n, start, len, out, tok, r);
      PrefixTrans(out, out', r);
      forall j | |out| <= j < |r| ensures Stepped(m, n, start, len, r, j) {
        if j > |out| {
          assert |out'| <= j < |r'|;
          assert Stepped(m, n, start, len, r', j);
        }
      }
    } else {
      assert Walk(m, n, out, current, fuel, draw, next) == out;
    }
  }

  /** A prefix of a prefix is a prefix. */
  lemma PrefixTrans(a: seq<string>, b: seq<string>, c: seq<string>)
    requires a <= b && b <= c
    ensures a <= c
  {
  }

  /**
   Generation fails exactly when there is no beginning; otherwise its output
   is a walk of at most `max` steps from one of the beginnings.
   */
  lemma GenerationIsWalk(n: nat, max: nat, m: Ngrams, starts: seq<string>, draw: nat -> nat)
    ensures Generation(n, max, m, starts, draw).None? <==> starts == []
    ensures Generation(n, max, m, starts, draw).Some? ==>
      exists i :: 0 <= i < |starts| && IsWalk(m, n, max, starts[i], Generation(n, max, m, starts, draw).value)
  {
    if starts != [] {
      var i := draw(0) % |starts|;
      var b := starts[i];
      var init := Tokenize(b);
      WalkSteps(m, n, b, |init|, init, max, draw, 1);
      assert IsWalk(m, n, max, b, Generation(n, max, m, starts, draw).value);
    }
  }

  /** Position of the first occurrence of `x` in `list`. */
  function IndexOf(list: seq<string>, x: string): (i: nat)
    requires x in list
    ensures i < |list| && list[i] == x
  {
    if list[0] == x then 0 else 1 + IndexOf(list[1..], x)
  }

  /**
   Draws that reproduce `out`: draw 0 picks beginning `i`, and the draw of
   each later step picks the position of that step's output token in the
   list of its n-gram.
   */
  function DrawsFor(m: Ngrams, n: nat, start: string, len: nat, out: seq<string>, i: nat): nat -> nat {
    (k: nat) => if k == 0 then i else StepDraw(m, n, start, len, out, k)
  }

  /** The position of the token step `k` appended in the list of the n-gram current at that step. */
  function StepDraw(m: Ngrams, n: nat, start: string, len: nat, out: seq<string>, k: nat): nat {
    if 1 <= k && len + k - 1 < |out| then
      var j := len + k - 1;
      var ctx := ContextAt(n, start, len, out, j);
      if ctx in m && out[j] in m[ctx] then IndexOf(m[ctx], out[j]) else 0
    else 0
  }

  /** The reproducing draw of step `k`, which appends token `j`. */
  lemma DrawsForStep(m: Ngrams, n: nat, start: string, len: nat, out: seq<string>, i: nat, k: nat, j: nat)
    requires len <= j < |out| && k == j - len + 1
    ensures var ctx := ContextAt(n, start, len, out, j);
      DrawsFor(m, n, start, len, out, i)(k)
        == if ctx in m && out[j] in m[ctx] then IndexOf(m[ctx], out[j]) else 0
  {
    assert len + k - 1 == j;
    assert DrawsFor(m, n, start, len, out, i)(k) == StepDraw(m, n, start, len, out, k);
  }

  /** A step picks back the token it is meant to append, given that token's position as the draw. */
  lemma PickReproduces(list: seq<string>, tok: string, d: nat)
    requires CanPick(list, tok)
    requires d == if tok in list then IndexOf(list, tok) else 0
    ensures Pick(list, d) == tok
  {
    if list != [] {
      assert Choice(list, d) == Some(list[d]);
    }
  }

  /** The draws of every step of `out` pick back the token that step appended. */
  ghost predicate Replays(m: Ngrams, n: nat, start: string, len: nat, out: seq<string>, draw: nat -> nat) {
    forall k: nat :: ReplaysStep(m, n, start, len, out, draw, k)
  }

  /** Draw `k` picks back the token step `k` appended. */
  ghost predicate ReplaysStep(m: Ngrams, n: nat, start: string, len: nat, out: seq<string>, draw: nat -> nat, k: nat) {
    1 <= k && len + k - 1 < |out| ==>
      var ctx := ContextAt(n, start, len, out, len + k - 1);
      ctx in m ==> Pick(m[ctx], draw(k)) == out[len + k - 1]
  }

  /** Draws that replay every step of a walk take the walk from its first `len` tokens to the whole of it. */
  lemma WalkComplete(m: Ngrams, n: nat, start: string, len: nat, out: seq<string>, max: nat, draw: nat -> nat)
    requires len <= |out| <= len + max
    requires forall i :: len <= i < |out| ==> Stepped(m, n, start, len, out, i)
    requires |out| < len + max ==> ContextAt(n, start, len, out, |out|) !in m
    requires Replays(m, n, start, len, out, draw)
    ensures Walk(m, n, out[..len], ContextAt(n, start, len, out[..len], len), max, draw, 1) == out
  {
    var h, fuel, next := len, max, 1;
    ghost var whole := Walk(m, n, out[..h], ContextAt(n, start, len, out[..h], h), fuel, draw, next);
    while h < |out|
      invariant len <= h <= |out| && h + fuel == len + max && next == h - len + 1
      invariant Walk(m, n, out[..h], ContextAt(n, start, len, out[..h], h), fuel, draw, next) == whole
      decreases |out| - h
    {
      assert Stepped(m, n, start, len, out, h);
      assert ReplaysStep(m, n, start, len, out, draw, next);
      ghost var h0, fuel0, next0 := h, fuel, next;
      h, fuel, next := h + 1, fuel - 1, next + 1;
      ReplayStep(m, n, start, len, out, h0, fuel0, next0, draw, h, fuel, next);
    }
    assert out[..h] == out;
    WalkOnce(m, n, out, ContextAt(n, start, len, out, h), fuel, draw, next);
  }

  /** One replayed step: the walk from the first `h` tokens of `out` takes token `h` of `out` next. */
  lemma ReplayStep(m: Ngrams, n: nat, start: string, len: nat, out: seq<string>,
                   h: nat, fuel: nat, next: nat, draw: nat -> nat, h': nat, fuel': nat, next': nat)
    requires len <= h < |out| <= h + fuel && next == h - len + 1
    requires h' == h + 1 && fuel' == fuel - 1 && next' == next + 1
    requires Stepped(m, n, start, len, out, h)
    requires ReplaysStep(m, n, start, len, out, draw, next)
    ensures Walk(m, n, out[..h], ContextAt(n, start, len, out[..h], h), fuel, draw, next)
         == Walk(m, n, out[..h'], ContextAt(n, start, len, out[..h'], h'), fuel', draw, next')
  {
    var p := out[..h];
    var ctx := ContextAt(n, start, len, p, h);
    assert ctx == ContextAt(n, start, len, out, h) by {
      assert p[..h] == out[..h];
    }
    assert len + next - 1 == h;
    var tok := Pick(m[ctx], draw(next));
    assert tok == out[h];
    var p' := out[..h'];
    assert p' == p + [tok];
    var ctx' := ContextAt(n, start, len, p', h');
    assert ctx' == Join(LastN(p', n)) by {
      assert p'[..h'] == p';
    }
    WalkAdvance(m, n, p, ctx, fuel, draw, next, p', ctx', fuel', next');
  }

  /** A step of the walk, with the updated output, n-gram, fuel and draw number given by name. */
  lemma WalkAdvance(m: Ngrams, n: nat, out: seq<string>, current: string, fuel: nat, draw: nat -> nat, next: nat,
                    out': seq<string>, current': string, fuel': nat, next': nat)
    requires fuel > 0 && current in m
    requires out' == out + [Pick(m[current], draw(next))]
    requires current' == Join(LastN(out', n))
    requires fuel' == fuel - 1 && next' == next + 1
    ensures Walk(m, n, out, current, fuel, draw, next) == Walk(m, n, out', current', fuel', draw, next')
  {
  }

  /** The reproducing draws replay every step of a walk. */
  lemma DrawsForReplays(m: Ngrams, n: nat, max: nat, start: string, out: seq<string>, i: nat)
    requires IsWalk(m, n, max, start, out)
    ensures Replays(m, n, start, |Tokenize(start)|, out, DrawsFor(m, n, start, |Tokenize(start)|, out, i))
  {
    var len := |Tokenize(start)|;
    var draw := DrawsFor(m, n, start, len, out, i);
    forall k: nat ensures ReplaysStep(m, n, start, len, out, draw, k) {
      if 1 <= k && len + k - 1 < |out| {
        var j := len + k - 1;
        assert Stepped(m, n, start, len, out, j);
        ReplaysAt(m, n, start, len, out, i, k, j);
      }
    }
  }

  /** The reproducing draw of step `k` picks back token `j`, the one that step appended. */
  lemma ReplaysAt(m: Ngrams, n: nat, start: string, len: nat, out: seq<string>, i: nat, k: nat, j: nat)
    requires len <= j < |out| && k == j - len + 1
    requires Stepped(m, n, start, len, out, j)
    ensures ReplaysStep(m, n, start, len, out, DrawsFor(m, n, start, len, out, i), k)
  {
    var draw := DrawsFor(m, n, start, len, out, i);
    DrawsForStep(m, n, start, len, out, i, k, j);
    var ctx := ContextAt(n, start, len, out, j);
    PickReproduces(m[ctx], out[j], draw(k));
    assert len + k - 1 == j;
  }

  /** Every walk from any beginning is the output of some generation: each drawn outcome is reachable. */
  lemma GenerationComplete(n: nat, max: nat, m: Ngrams, starts: seq<string>, i: nat, out: seq<string>)
    requires i < |starts|
    requires IsWalk(m, n, max, starts[i], out)
    ensures exists draw :: Generation(n, max, m, starts, draw) == Some(out)
  {
    var b := starts[i];
    var len := |Tokenize(b)|;
    var draw := DrawsFor(m, n, b, len, out, i);
    DrawsForReplays(m, n, max, b, out, i);
    WalkComplete(m, n, b, len, out, max, draw);
    assert out[..len] == Tokenize(b);
    assert draw(0) == i;
    assert Choice(starts, draw(0)) == Some(b);
    assert Walk(m, n, Tokenize(b), b, max, draw, 1) == out;
    assert Generation(n, max, m, starts, draw) == Some(out);
  }

  /** The n-gram of the `n` output tokens just before token `j`. */
  function Gram(r: seq<string>, n: nat, j: nat): string
    requires n <= j <= |r|
  {
    Join(r[j - n..j])
  }

  /** From a beginning that is a context of order `n`, the n-gram at every step is the one just before it. */
  lemma ContextAtGram(n: nat, b: string, r: seq<string>, j: nat)
    requires IsContext(b, n)
    requires Tokenize(b) <= r
    requires n <= j <= |r|
    ensures ContextAt(n, b, n, r, j) == Gram(r, n, j)
  {
    ContextTokens(b, n);
    if j == n {
      assert r[j - n..j] == Tokenize(b);
    } else {
      assert LastN(r[..j], n) == r[j - n..j];
    }
  }

  /**
   A walk from a context of order `n` appends each token from the list of
   the n-gram of the `n` tokens before it, and stops before `max` steps only
   at an n-gram without an entry.
   */
  lemma WalkFromContext(m: Ngrams, n: nat, max: nat, b: string, r: seq<string>)
    requires IsContext(b, n)
    requires IsWalk(m, n, max, b, r)
    requires NonEmptyLists(m)
    ensures n <= |r| <= n + max && r[..n] == Tokenize(b)
    ensures forall j :: n <= j < |r| ==> Gram(r, n, j) in m && r[j] in m[Gram(r, n, j)]
    ensures |r| < n + max ==> Gram(r, n, |r|) !in m
  {
    ContextTokens(b, n);
    forall j | n <= j < |r| ensures Gram(r, n, j) in m && r[j] in m[Gram(r, n, j)] {
      assert Stepped(m, n, b, n, r, j);
      ContextAtGram(n, b, r, j);
    }
    if |r| < n + max {
      ContextAtGram(n, b, r, |r|);
    }
  }

  /**
   On a well-trained model a generation has between `n` and `n + max`
   tokens, begins with the tokens of a beginning, appends each later token
   from the list of the n-gram of the `n` tokens before it, and stops before
   `max` steps only at an n-gram without an entry.
   */
  lemma GenerationMarkov(n: nat, max: nat, m: Ngrams, starts: seq<string>, draw: nat -> nat)
    requires WellTrained(n, m, starts)
    requires Generation(n, max, m, starts, draw).Some?
    ensures var r := Generation(n, max, m, starts, draw).value;
      && n <= |r| <= n + max
      && (exists b :: b in starts && Tokenize(b) == r[..n])
      && (forall j :: n <= j < |r| ==> Gram(r, n, j) in m && r[j] in m[Gram(r, n, j)])
      && (|r| < n + max ==> Gram(r, n, |r|) !in m)
  {
    var r := Generation(n, max, m, starts, draw).value;
    GenerationIsWalk(n, max, m, starts, draw);
    var i :| 0 <= i < |starts| && IsWalk(m, n, max, starts[i], r);
    WalkFromContext(m, n, max, starts[i], r);
  }
}
