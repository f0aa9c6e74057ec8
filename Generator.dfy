/**
 The generator object itself: its four fields, training by feeding lines,
 generating one text by a random walk, and saving and restoring the fields.
 */
module Generator {
  import opened Tokens
  import opened Chain

  /** The record that saving produces and restoring consumes: exactly the four fields. */
  datatype Saved = Saved(n: nat, max: nat, ngrams: Ngrams, beginnings: seq<string>)

  /** Generating from a model with no beginnings fails (the source throws on splitting `undefined`). */
  datatype GenerateError = EmptyModel

  datatype Result<T> = Success(value: T) | Failure(error: GenerateError)

  class MarkovGeneratorWord {
    /** Order (length) of every n-gram. */
    var n: nat
    /** Largest number of tokens one generation appends. */
    var max: nat
    /** Each n-gram key with the tokens observed after it. */
    var ngrams: Ngrams
    /** The first n-gram of every line fed, one per accepted line. */
    var beginnings: seq<string>

    constructor (n: nat, max: nat)
      ensures this.n == n && this.max == max
      ensures ngrams == map[] && beginnings == []
      ensures Trained()
    {
      this.n := n;
      this.max := max;
      ngrams := map[];
      beginnings := [];
    }

    /** The promise training keeps: lists non-empty, keys and beginnings are n-grams. */
    ghost predicate Trained()
      reads this
    {
      WellTrained(n, ngrams, beginnings)
    }

    /**
     Splits `text` into tokens; a line with fewer than `n` tokens is refused
     and changes nothing. Otherwise its first n-gram becomes a new beginning
     and every window of `n` tokens records the token after it.
     */
    method Feed(text: string) returns (ok: bool)
      modifies this`ngrams, this`beginnings
      ensures ok <==> |Tokenize(text)| >= n
      ensures !ok ==> ngrams == old(ngrams) && beginnings == old(beginnings)
      ensures ok ==> beginnings == old(beginnings) + [Join(Tokenize(text)[..n])]
      ensures ok ==> ngrams == AddWindows(old(ngrams), Tokenize(text), n, |Tokenize(text)| - n)
      ensures old(Trained()) && n >= 1 ==> Trained()
    {
      var tokens := Tokenize(text);
      if |tokens| < n {
        return false;
      }
      TokenizeWellFormed(text);
      Learn(tokens);
      return true;
    }

    /** Feeding an accepted line: its first n-gram becomes a beginning, then its windows are recorded. */
    method Learn(tokens: seq<string>)
      requires n <= |tokens|
      modifies this`ngrams, this`beginnings
      ensures beginnings == old(beginnings) + [Join(tokens[..n])]
      ensures ngrams == AddWindows(old(ngrams), tokens, n, |tokens| - n)
      ensures WellTrained(n, old(ngrams), old(beginnings)) && n >= 1 && WellFormed(tokens) ==> WellTrained(n, ngrams, beginnings)
    {
      var order, before, starts := n, ngrams, beginnings;
      var beginning := Join(tokens[..order]);
      var table := RecordWindows(before, order, tokens);
      if WellTrained(order, before, starts) && order >= 1 && WellFormed(tokens) {
        FeedKeepsWellTrained(order, before, starts, tokens);
      }
      beginnings := starts + [beginning];
      ngrams := table;
    }

    /**
     The loop of feeding: every window of `order` tokens pushes the token
     after it under the window's key, creating the key's list first when it
     is absent.
     */
    static method RecordWindows(m: Ngrams, order: nat, tokens: seq<string>) returns (table: Ngrams)
      requires order <= |tokens|
      ensures table == AddWindows(m, tokens, order, |tokens| - order)
    {
      table := m;
      var i := 0;
      while i < |tokens| - order
        invariant 0 <= i <= |tokens| - order
        invariant table == AddWindows(m, tokens, order, i)
      {
        var gram := Join(tokens[i..i + order]);
        var next := tokens[i + order];
        ghost var prev, before := table, i;
        if gram !in table {
          table := table[gram := []];
        }
        table := table[gram := table[gram] + [next]];
        CreateThenPush(prev, gram, next);
        i := i + 1;
        AddWindowsNext(m, tokens, order, before, i);
      }
    }

    /**
     One generated text: the first draw picks a beginning, whose tokens start
     the output; then up to `max` times, while the current n-gram has an
     entry, a drawn token from its list is appended and the last `n` output
     tokens become the current n-gram. The tokens are joined with spaces.
     */
    method Generate(draw: nat -> nat) returns (r: Result<string>)
      ensures beginnings == [] <==> r.Failure?
      ensures r.Success? ==> Generation(n, max, ngrams, beginnings, draw).Some?
      ensures r.Success? ==> r.value == Join(Generation(n, max, ngrams, beginnings, draw).value)
    {
      var chosen := Choice(beginnings, draw(0));
      if chosen.None? {
        return Failure(EmptyModel);
      }
      var start := chosen.value;
      var output := Continue(ngrams, n, max, start, draw);
      return Success(Join(output));
    }

    /**
     The loop of generating from a chosen beginning: its tokens, then up to
     `limit` tokens each drawn from the list of the current n-gram of order
     `order`, stopping early at an n-gram with no entry.
     */
    static method Continue(table: Ngrams, order: nat, limit: nat, start: string, draw: nat -> nat)
      returns (output: seq<string>)
      ensures output == Walk(table, order, Tokenize(start), start, limit, draw, 1)
    {
      var current := start;
      output := Tokenize(current);
      ghost var walk := Walk(table, order, output, start, limit, draw, 1);
      ghost var fuel, next := limit, 1;
      var i := 0;
      while i < limit
        invariant 0 <= i <= limit && fuel == limit - i && next == i + 1
        invariant Walk(table, order, output, current, fuel, draw, next) == walk
      {
        if current in table {
          var possible := table[current];
          var token := Pick(possible, draw(i + 1));
          ghost var output0, current0, fuel0, next0 := output, current, fuel, next;
          output := output + [token];
          current := Join(LastN(output, order));
          i := i + 1;
          fuel, next := fuel - 1, next + 1;
          WalkAdvance(table, order, output0, current0, fuel0, draw, next0, output, current, fuel, next);
        } else {
          break;
        }
      }
      WalkOnce(table, order, output, current, fuel, draw, next);
    }

    /** The saved record of the four fields. */
    function ToJson(): (s: Saved)
      reads this
      ensures s.n == n && s.max == max && s.ngrams == ngrams && s.beginnings == beginnings
    {
      Saved(n, max, ngrams, beginnings)
    }

    /** Overwrites the four fields with a saved record's, whatever they held. */
    method FromJson(data: Saved)
      modifies this
      ensures n == data.n && max == data.max && ngrams == data.ngrams && beginnings == data.beginnings
      ensures Trained() <==> WellTrained(data.n, data.ngrams, data.beginnings)
    {
      n, max, ngrams, beginnings := data.n, data.max, data.ngrams, data.beginnings;
    }

    /** Restoring what was just saved gives back the same four fields. */
    method SaveRestore()
      modifies this
      ensures n == old(n) && max == old(max) && ngrams == old(ngrams) && beginnings == old(beginnings)
    {
      var saved := ToJson();
      FromJson(saved);
    }
  }
}
