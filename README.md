# aurora: tiered memory and word learning, modelled in Dafny

`aurora.py` holds two small stateful memory engines, and this project models both.

- **`MemoryManager`** is a two-tier store.
  - A bounded short-term memory (STM) is a head-inserted linked list of `MemoryNode`s with a separate size counter.
  - When the counter reaches the capacity, a promotion pass walks the STM from head to tail. It copies every node whose weight reaches the threshold into an append-only long-term memory (LTM) and adds one to that node's data in a table of promotion counts ("adaptive weights"). Then it clears the STM.
  - A pattern report counts the data values that occur more than once in the LTM.
- **`SymbolicBrain`** learns words by repetition.
  - It keeps a window of the last five words and an occurrence count per word.
  - A word is learned once its count reaches 3.
  - A decay pass lowers the counts of words not yet learned and forgets any word whose count reaches 0.
  - Recall joins the learned words or returns a fixed message.

Files:

- `memory_manager.dfy` (module `MemoryTiers`): the `Entry` value, which is a `MemoryNode` without its link, and the class `MemoryManager`.
  - The STM is a head-first `seq<Entry>` field.
  - The specification functions are `Promoted` (which entries a pass promotes), `Tally` (the count table after a pass), `Occurrences` and `PatternCounts`.
- `symbolic_brain.dfy` (module `WordLearning`): the class `SymbolicBrain`.
  - The specification functions are `Window`, `CountWords`, `LearnAll`, `Decayed` and `JoinWords`/`SplitAtSpaces`.

Each mutating method is proved against these functions: its `ensures` gives the new state as a function of the old state. Lemmas then prove what the functions mean: exact counts, membership in both directions, order, composition and round trips. The class invariants are:

- `MemoryManager.Valid`:
  - the list holds `stmSize` or `stmSize + 1` entries;
  - `stmSize <= max(0, stmCapacity)`;
  - the adaptive-weight table always equals the tally of the LTM.
- `SymbolicBrain.Valid`: the window holds at most 5 words and every count is positive.
- `SymbolicBrain.LearnedRetained`: every learned word is still counted at 3 or more. It is kept by every operation. `CheckLearnedWords` keeps it only when called with a threshold of at least 3.

Behaviour kept from the code:

- `add_to_memory` builds the node with the caller's weight before it looks up the bonus. The bonus-adjusted weight is a local that is never stored, so the model computes it and leaves it unused.
- On overflow, `reinforce_memory` sets the counter to 0 and `add_to_memory` then installs the new node without raising the counter. After an overflow the list holds one entry more than the counter says.
- The promotion test is `weight >= threshold`, inclusive, although the docstring says "exceeds".
- `decay_memory` deletes a word when its count is exactly 0 after the pass. A learned word is never decremented.

Where the source's comments and its code point different ways, the model follows the code:

- **Stored weight.** The comment at aurora.py:36 ("Adjust weight based on past occurences") suggests that the bonus raises the weight. But the node is built at aurora.py:33 with the caller's weight, before the bonus is added. `AddToMemory` stores `Entry(data, weight)`.
- **Capacity.** aurora.py:24 calls `stm_capacity` the limit for short-term memory, but only the counter respects it.
  - For a capacity of 0 or more, the model proves `stmSize <= stmCapacity`. For a negative capacity it proves `stmSize == 0`.
  - The list can hold one more entry than the counter: `capacity + 1` entries, or at most one entry for a negative capacity.

## Model

| member | source | states |
|---|---|---|
| MemoryTiers.MemoryManager.constructor | aurora.py:23-29 | A new manager has the given capacity, an empty STM with counter 0, an empty LTM and an empty bonus table, and satisfies the invariant |
| MemoryTiers.MemoryManager.AddToMemory | aurora.py:31-44 | Below capacity, the entry with the caller's own weight becomes the new head, the counter rises by 1, and the LTM and bonus table are unchanged. At capacity, the LTM gains the promoted entries and the table their tally, the STM becomes exactly the new entry, and the counter is 0. The invariant is kept either way |
| MemoryTiers.MemoryManager.ReinforceMemory | aurora.py:46-58 | The new LTM is the old LTM followed by exactly the promoted STM entries, in head-to-tail order. The bonus table becomes the old table tallied with those entries. The STM and counter end empty and 0. On an empty STM, the LTM and table are unchanged. The invariant is kept |
| MemoryTiers.PromotionPass | aurora.py:49-55 | The walk over the list appends exactly `Promoted(nodes, threshold)` to the LTM and tallies exactly those entries into the table |
| MemoryTiers.Promoted | aurora.py:50-53 | A promotion pass never yields more entries than it walked, and every entry it yields has weight at least the threshold |
| MemoryTiers.PromotedContents | aurora.py:52-53 | Every copy of each entry that reaches the threshold is promoted, and no copy of any other entry |
| MemoryTiers.PromotedAppend | aurora.py:49-55 | Promotion keeps order: promoting `a + b` promotes `a`'s entries, then `b`'s |
| MemoryTiers.TallyCounts | aurora.py:54 | Tallying raises each data value's count by exactly its number of tallied entries, starting an absent key at 0. A key is present afterwards if and only if it was present before or was tallied |
| MemoryTiers.TallyNeverLowers | aurora.py:54 | Tallying never lowers a count and never removes a key, and it leaves the count of any data value not tallied unchanged |
| MemoryTiers.TallyAppend | aurora.py:54 | Two successive promotion passes update the table as one pass over both lists. This is how the invariant "table = tally of the LTM" survives each pass |
| MemoryTiers.OccurrencesAppend | aurora.py:78-79 | Occurrence counts add up over concatenated histories |
| MemoryTiers.OccurrencesPositive | aurora.py:78-79 | A data value has a positive count exactly when some entry carries it |
| MemoryTiers.PatternCounts | aurora.py:78-83 | The report holds exactly the data values occurring more than once in the LTM, each with its number of occurrences |
| MemoryTiers.MemoryManager.AnalyzePatterns | aurora.py:75-83 | The report holds exactly the repeated data values of the LTM with their counts. Under the invariant, it is exactly the part of the bonus table whose counts exceed 1 |
| WordLearning.SymbolicBrain.constructor | aurora.py:97-101 | A new brain has an empty window, no counts and no learned words, and satisfies both invariants |
| WordLearning.SymbolicBrain.ProcessInput | aurora.py:103-110 | After processing, the window is the last `min(5, n)` words of everything seen, the counts are the old counts plus one per occurrence, and the learned set is the old set plus each word whose count reached 3 on the way. Both invariants are kept |
| WordLearning.Window | aurora.py:106-109 | The window holds `min(5, n)` words |
| WordLearning.WindowSlide | aurora.py:106-109 | Appending a word and dropping the oldest one on overflow keeps the window equal to the last five words seen |
| WordLearning.CountWordsAt | aurora.py:115-118 | Counting a batch raises each word's count by exactly its number of occurrences, with a new word starting from 0. Other words are unchanged. A word is counted afterwards if and only if it was counted before or occurs in the batch |
| WordLearning.LearnAllAt | aurora.py:120-121 | A word is learned after a batch if and only if it was learned before, or it occurs in the batch and its earlier count plus its occurrences reaches 3. No learned word is ever dropped |
| WordLearning.LearningKeepsCounts | aurora.py:115-121 | If every learned word has a count of at least 3 before a batch, that still holds afterwards, including for the words learned during the batch |
| WordLearning.SymbolicBrain.UpdateMemory | aurora.py:112-121 | The word's count rises by 1, or is created at 1. The word joins the learned set exactly when its new count is at least 3. The window is unchanged and both invariants are kept |
| WordLearning.SymbolicBrain.CheckLearnedWords | aurora.py:135-139 | The word is added if and only if it is not yet learned and its count (0 when absent) reaches the threshold. Otherwise nothing changes. The window and counts never change |
| WordLearning.SymbolicBrain.DecayMemory | aurora.py:123-129 | The counts become exactly `Decayed(old counts, learned, rate)`. The window and learned set are unchanged, and both invariants are kept |
| WordLearning.Decayed | aurora.py:125-129 | No key is added. A word not learned survives if and only if its count exceeds the rate, and then it is lowered by exactly the rate and stays positive. A learned word with a non-zero count keeps it. Positive counts stay positive. An empty table stays empty |
| WordLearning.DecayCompounds | aurora.py:123-129 | Two decay passes compound linearly: decaying by `r1` and then by `r2 >= 0` equals one decay by `r1 + r2` |
| WordLearning.NothingRecalledText | aurora.py:144 | The recall message is the literal text "No full words recalled." |
| WordLearning.SymbolicBrain.RecallWords | aurora.py:142-144 | With nothing learned, the result is the fixed message. Otherwise, when no learned word contains a space, cutting the result at spaces gives back exactly the learned words in iteration order |
| WordLearning.SplitJoin | aurora.py:144 | Joining space-free words with single spaces can be undone by cutting at spaces |
| WordLearning.RecallMatchesMessage | aurora.py:144 | The converse of the empty case fails: having learned the four words "No", "full", "words", "recalled." in that order recalls the fixed message itself |
| WordLearning.SymbolicBrain.GetMemoryState | aurora.py:146-151 | The snapshot is the window (at most 5 words), the counts (all positive) and the learned set |

## Left out

- Locks (aurora.py:28, 34, 48, 63, 77, 101, 143) are not modelled: operations are sequential.
  - `add_to_memory` holds a non-reentrant lock and calls `reinforce_memory`, which takes the same lock again. In Python the overflow path would therefore deadlock.
  - The model runs that path as one critical section.
- Console output is not modelled. This covers `display_memory`, the debug prints, and the printing in `analyze_patterns`; the pattern report is returned as a map instead.
- `EEGSimulator` is left out. It is a producer driven by `random.randint`. The module-level example driver and the notebook header are left out too.
- Counts are exact `real`s. Python's float rounding, for example repeated subtraction of the default rate 0.1, is not modelled.
- The linked list's node objects, links and aliasing are not modelled: the STM is a sequence of values. The head-first order and the head-to-tail walk are kept.
- `str.split` is not modelled. `ProcessInput` receives the words already split.
- Python's set iteration order is unspecified, so `RecallWords` takes it as the parameter `order`, an enumeration of the learned set.
- Nothing validates the capacity, thresholds or decay rate, because the code does not. Any integer capacity is accepted; a capacity of 0 or less makes every insert overflow.
- WordLearning.SymbolicBrain.RecallWords: the property "the message is returned exactly when nothing is learned" is proved only in the direction "nothing learned gives the message". The converse is false for the code, and `RecallMatchesMessage` shows a counterexample.
- WordLearning.SymbolicBrain.RecallWords: the join is characterised through `SplitAtSpaces` only when no learned word contains a space. Words from `str.split` never do.
- WordLearning.SymbolicBrain.GetMemoryState: the window and counts are returned as values, so later calls cannot change them. In the source, aurora.py:148-149 hands out the live `stm` list and `ltm` dict, and later `process_input` or `decay_memory` calls change a snapshot already returned; this aliasing is not modelled. Only the learned words are copied there, and they come back as a list in set iteration order (aurora.py:150). The model returns them as a set.
- MemoryTiers.Entry: `data` is a string and `weight` an integer. In the source `data` may be any hashable value and `weight` any number (aurora.py:17, 31). The model uses the weight only in the `>=` test, and the bonus sum is never stored.
