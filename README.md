# Word-level Markov text generator

This project models `MarkovGeneratorWord` from `markovword.js`. It is a word-level Markov chain. An n-gram is `n` consecutive tokens joined by one space.

**Feeding.** Feeding a line of text does the following:
- It splits the line on runs of whitespace.
- It rejects a line with fewer than `n` tokens.
- Otherwise it remembers the line's first n-gram as a possible beginning.
- For every window of `n` tokens, it pushes the token after the window onto the list kept under the window's n-gram.

**Generating.** Generating picks a beginning at random and outputs its tokens. Then, at most `max` times, it appends a token picked at random from the list of the current n-gram. The current n-gram is the last `n` output tokens, joined. Generation stops early at an n-gram with no entry. The tokens are joined with spaces. Saving and restoring copy the four fields `n`, `max`, `ngrams` and `beginnings`.

**Modules.**
- `Tokens` (Tokens.dfy) holds the free helpers:
  - splitting (`Tokenize`, JavaScript's `split(/\s+/)`);
  - joining (`Join`, `join(" ")`);
  - `Choice`, the random pick.
- `Chain` (Chain.dfy) describes the model as values:
  - `AddWindows` is the table after a line's windows are recorded.
  - `Walk` and `Generation` are the generation loop as a function of the draws.
  - The lemmas state what feeding and generating promise.
- `Generator` (Generator.dfy) is the object itself. It is the class `MarkovGeneratorWord` with the four fields:
  - `Feed` updates `ngrams` and `beginnings`, and its loop records into the table.
  - `Generate` changes nothing. Its loop pushes onto a local output list.
  - `ToJson`/`FromJson` save and restore.
  - The imperative methods are proved against the `Chain` functions, and the properties are proved about those functions.

**Randomness.** Randomness is a parameter `draw: nat -> nat`:
- Draw 0 picks the beginning.
- Draw `k` picks the token of step `k`.
- A draw `d` on a list of length `L > 0` selects element `d % L`. Every index in range selects itself, so each `Math.floor(Math.random() * L)` outcome is one draw.

**Empty tokens at the ends.** `str.split(/\s+/)` keeps an empty first token when the text starts with whitespace and an empty last token when it ends with it: " the cat" gives `["", "the", "cat"]`, "the cat " gives `["the", "cat", ""]`, and the empty text gives `[""]` (`LeadingSpaceExample`, `TrailingSpaceExample`). Inside a line, any run of whitespace characters separates two tokens like one space does (`TokenizeGap`).

## Model

| member | source | states |
|---|---|---|
| Tokens.Tokenize | markovword.js:16-18 | Splitting yields at least one token. `TokenizeSingle` and `TokenizeGap` together fix what it yields for every text. |
| Tokens.TokenizeGap | markovword.js:16-18 | A word followed by a non-empty run of whitespace (spaces, tabs, line breaks or any other `\s` character) and then the rest of the text is the word followed by the split of the rest. With `TokenizeSingle` this determines the split of every text. |
| Tokens.TokenizeLast | markovword.js:16-18 | The last token is non-empty when the text ends with a non-space. |
| Tokens.MixedGapExample | markovword.js:16-18 | "the \t cat" splits into "the", "cat": a run of a space, a tab and a space separates like one space. |
| Tokens.TokenizeWellFormed | markovword.js:16-18 | Splitting yields tokens free of whitespace. Only the first and last may be empty. The first is non-empty when the text starts with a non-space, and the last is non-empty when it ends with one. |
| Tokens.Join | markovword.js:58 | `join(" ")`: the tokens in order with one space between neighbours. Its properties are stated by `JoinEnds` and `TokenizeJoin`. |
| Tokens.JoinEnds | markovword.js:58 | Joining no tokens gives the empty text. Otherwise the joined text begins with the first token and ends with the last. |
| Tokens.TokenizeJoin | markovword.js:16-18 | Splitting undoes joining with single spaces for every token list splitting can produce. |
| Tokens.TokenizeSingle | markovword.js:16-18 | A text splits into exactly itself if and only if it holds no whitespace. |
| Tokens.LeadingSpaceExample | markovword.js:16-18 | " the cat" splits into "", "the", "cat" (an empty first token is kept). |
| Tokens.TrailingSpaceExample | markovword.js:16-18 | "the cat " splits into "the", "cat", "" (an empty last token is kept). |
| Tokens.WindowWellFormed | markovword.js:65 | Every non-empty window of a split line is itself a well-formed token list. |
| Tokens.Choice | markovword.js:22-25 | The pick is nothing exactly for an empty list. Otherwise it is an element of the list, and an in-range draw picks the element at that index. |
| Chain.Lookup | markovword.js:70 | The list kept under a key, or the empty list when the key is absent (`!this.ngrams[gram]`). |
| Chain.Record | markovword.js:70-74 | A push leaves the key set as it was, plus the pushed key. |
| Chain.CreateThenPush | markovword.js:70-74 | Creating an empty list for an absent key and then pushing is one `Record`. |
| Chain.RecordLookup | markovword.js:74 | A push appends the token to its key's list and leaves every other list unchanged. |
| Chain.Window | markovword.js:65 | The key of the window of `n` tokens starting at token `i`. With `n = 1` it is token `i` itself. |
| Chain.AddWindows | markovword.js:63-75 | The table after the first `k` windows of a line are recorded. No key is lost. Its keys and lists are stated by `AddWindowsKeys` and `AddWindowsLookup`. |
| Chain.SuccessorsMembers | markovword.js:63-75 | A token is among a key's successors in a line if and only if some window with that key is followed by it. |
| Chain.SuccessorFrom | markovword.js:63-75 | Every successor of a key is the token after some window with that key. |
| Chain.SuccessorAt | markovword.js:63-75 | The token after any window is among the successors of that window's key. |
| Chain.AddWindowsLookup | markovword.js:63-75 | After feeding, each key's list is its old list followed by exactly the successors the line gives it, in line order. |
| Chain.AddWindowsKeys | markovword.js:63-75 | After feeding, a key is present if and only if it was present before or the line has a window with that key. |
| Chain.AddWindowsAppendOnly | markovword.js:63-75 | Feeding removes no key, and every old list is a prefix of its new list. |
| Chain.WindowRecorded | markovword.js:63-75 | After feeding, window `i`'s key is present and token `i + n` is on its list. |
| Chain.FeedExampleTokens | markovword.js:16-18 | The six words of "the cat sat on the mat" join back into that text, and splitting the text gives them back. |
| Chain.FeedExampleTable | markovword.js:63-75 | With n = 1, the five windows of those six words give the table {the: [cat, mat], cat: [sat], sat: [on], on: [the]}. |
| Chain.FeedExample | markovword.js:50-75 | With n = 1, feeding the text "the cat sat on the mat" gives the beginning "the" and the table {the: [cat, mat], cat: [sat], sat: [on], on: [the]}. There is no key "mat". |
| Chain.AddWindowsNonEmpty | markovword.js:70-74 | Feeding keeps every list non-empty, because a list is created only right before a push. |
| Chain.TotalLengthRemove | markovword.js:63-75 | Counting all transitions can start from any key. |
| Chain.RecordTotal | markovword.js:74 | One push adds exactly one transition. |
| Chain.AddWindowsTotal | markovword.js:63-75 | Recording `k` windows adds exactly `k` transitions, so a line adds `|tokens| - n`. |
| Chain.FeedTwice | markovword.js:63-75 | Feeding the same line twice appends its successors to each key twice, in order, with duplicates kept. |
| Chain.ContextTokens | markovword.js:86 | A beginning or key made of `n` split tokens splits back into exactly those `n` tokens. |
| Chain.WindowIsContext | markovword.js:65 | Every window key of a split line of order at least one is the join of `n` split tokens. |
| Chain.AddWindowsContexts | markovword.js:63-75 | Feeding keeps every key the join of `n` split tokens. |
| Chain.StartIsContext | markovword.js:58 | A line's beginning is the join of its first `n` split tokens. |
| Chain.ContextsAppend | markovword.js:59 | Pushing a context onto a list of contexts gives a list of contexts. |
| Chain.FeedKeepsWellTrained | markovword.js:49-78 | Feeding a long enough line keeps a model well trained: every list is non-empty, and every key and beginning is an n-gram of split tokens. |
| Chain.LastN | markovword.js:100 | The slice is a suffix of the output. With at least `n` tokens it is the last `n`. With fewer, JavaScript's `slice` counts a negative start back from the end: it keeps the last `n - |out|` tokens when `2 * |out| >= n`, and all of them otherwise. |
| Chain.Pick | markovword.js:93-97 | A step appends an element of a non-empty list. An empty list (possible only after restoring) gives `undefined`, which joins as "". |
| Chain.Walk | markovword.js:89-104 | The rest of the generation loop as a function of the draws: the output after at most `fuel` more iterations from the current n-gram. Its properties are stated by `WalkOnce` and `WalkSteps`. |
| Chain.WalkOnce | markovword.js:89-104 | The loop stops when no iterations are left or the current n-gram has no entry. Otherwise it appends the drawn token and moves to the last `n` tokens. |
| Chain.WalkAdvance | markovword.js:91-100 | With iterations left at an n-gram that has an entry, the loop continues from the output extended by the drawn token, the join of its last `n` tokens, one iteration fewer and the next draw. |
| Chain.ContextAtPrefix | markovword.js:100 | The n-gram consulted before a token depends only on the output before it. |
| Chain.WalkStep | markovword.js:91-100 | One iteration appends a token that the current n-gram's list allows. |
| Chain.WalkSteps | markovword.js:89-104 | The loop keeps what is output, appends at most its bound, draws every token from the current n-gram's list, and stops early only at a missing n-gram. |
| Chain.Generation | markovword.js:81-107 | The tokens of one generation: the first draw picks a beginning and the walk runs from its tokens. It is absent exactly when there are no beginnings. |
| Chain.GenerationIsWalk | markovword.js:81-107 | Generation fails exactly when there is no beginning. Otherwise its output is such a walk from one of the beginnings. |
| Chain.IndexOf | markovword.js:95 | Returns a position in the list that holds the given token. |
| Chain.DrawsForStep | markovword.js:95 | The reproducing draw of a step is the position of that step's token in its n-gram's list. |
| Chain.PickReproduces | markovword.js:95 | Drawing a token's position picks that token back. |
| Chain.ReplaysAt | markovword.js:95 | The reproducing draw of step `k` picks back the token step `k` appended. |
| Chain.DrawsForReplays | markovword.js:89-104 | The reproducing draws pick back every token of a walk. |
| Chain.ReplayStep | markovword.js:91-100 | From the first `h` tokens of a walk, replaying draws append token `h` of the walk. |
| Chain.WalkComplete | markovword.js:89-104 | Replaying draws take the loop from the beginning's tokens to the whole of a given walk. |
| Chain.GenerationComplete | markovword.js:81-107 | Every walk from any beginning is the output of some sequence of draws, so every outcome the source can produce is reached. |
| Chain.ContextAtGram | markovword.js:100 | From a beginning of `n` tokens, the n-gram at each step is the join of the `n` tokens just before it. |
| Chain.WalkFromContext | markovword.js:83-104 | A walk from such a beginning has between `n` and `n + max` tokens and starts with the beginning's tokens. Each later token comes from the list of the n-gram just before it. It stops early only at a missing n-gram. |
| Chain.GenerationMarkov | markovword.js:81-107 | On a well-trained model, every generation has the shape `WalkFromContext` states, starting from one of the beginnings. |
| Generator.MarkovGeneratorWord.constructor | markovword.js:28-37 | Stores `n` and `max`, starts with an empty table and no beginnings, and is well trained. |
| Generator.MarkovGeneratorWord.Feed | markovword.js:49-78 | Returns false exactly for a line with fewer than `n` tokens, changing nothing. Otherwise it appends one beginning (the first `n` tokens joined), records every window of the line, and keeps the model well trained. |
| Generator.MarkovGeneratorWord.Learn | markovword.js:57-75 | Appends the line's beginning and records every window into the fields. |
| Generator.MarkovGeneratorWord.RecordWindows | markovword.js:62-75 | The feeding loop produces exactly `AddWindows` of the table it starts from. |
| Generator.MarkovGeneratorWord.Generate | markovword.js:81-107 | Fails exactly when there are no beginnings. Otherwise it returns the join of `Generation`, and it changes no field. |
| Generator.MarkovGeneratorWord.Continue | markovword.js:86-104 | The generation loop produces exactly `Walk` from the chosen beginning's tokens. |
| Generator.MarkovGeneratorWord.ToJson | markovword.js:39-42 | The saved record holds exactly the four fields. |
| Generator.MarkovGeneratorWord.FromJson | markovword.js:44-46 | Restoring overwrites all four fields with the record's. The model is then well trained exactly when the record is. |
| Generator.MarkovGeneratorWord.SaveRestore | markovword.js:39-46 | Restoring what was just saved gives back the same four fields. |

## Left out

- index.js and bot.js are not part of this model. They are bot plumbing: file reading, scheduling, the network, logging and canned replies.
- `generateText` (index.js:35-42) only joins a float-random number of `generate()` results. It is a caller of the core and is not modelled.
- `Math.random()` is not modelled. Its float arithmetic (markovword.js:23) is replaced by the injected `draw` function.
- JSON text encoding and decoding are not modelled (`JSON.stringify`/`JSON.parse`, markovword.js:41, 45). Saving and restoring are a copy of a record of the four fields.
- The merging behaviour of `Object.assign` is not modelled. A parsed object with missing or extra fields would leave or add fields.
- The table is a `map`. JavaScript's plain-object quirks are not modelled: a key such as "constructor" or "__proto__" seen through the prototype.
- `n` and `max` are natural numbers. Negative or fractional values, which only a restored record could supply, are not modelled.
- JavaScript strings are sequences of UTF-16 code units, while Dafny strings are sequences of Unicode scalar values. A lone surrogate, which JavaScript allows, cannot be represented. No behaviour depends on it, because every `\s` character is in the Basic Multilingual Plane.
- Generate: "changes nothing" is stated by the method having no `modifies` clause, not by an `ensures`.
- Feed: the windows are recorded into a copy of the table that is then stored back. The source pushes into the shared lists in place. No other reference to those lists exists in the core, so the difference is not observable here.
- Feed: keeping the model well trained is promised only for `n >= 1`. With `n = 0` every key and beginning is the empty string, which is not an n-gram of split tokens.
- Generate: the source throws a `TypeError` when there are no beginnings (`tokenize(undefined)`). The model reports this as the `EmptyModel` failure.
