/** Word learning by repeated occurrence: a sliding window of recent words, an
    occurrence count per word, a set of learned words, and decay of the counts of
    words not yet learned. */
module WordLearning {

  /** Number of recent words the window keeps. */
  const WindowSize: nat := 5

  /** Count at which a word is learned. */
  const LearnThreshold: real := 3.0

  /** Default amount a decay pass subtracts. */
  const DefaultDecayRate: real := 0.1

  /** What recall answers when no word is learned: "No full words recalled."
      (`NothingRecalledText`). It is written as its four words joined by spaces so
      that the solver can match it against a join of words without comparing
      characters one by one. */
  const NothingRecalled: string := "No" + " " + ("full" + " " + ("words" + " " + "recalled."))

  /** The recall message is the literal text of the source. */
  lemma NothingRecalledText()
    ensures NothingRecalled == "No full words recalled."
  {
  }

  /** Count lookup with a default of 0 for an unseen word. */
  function WordCount(counts: map<string, real>, w: string): real
  {
    if w in counts then counts[w] else 0.0
  }

  /** Number of occurrences of `w` in `ws`. */
  function Frequency(ws: seq<string>, w: string): nat
  {
    if ws == [] then 0
    else Frequency(ws[..|ws| - 1], w) + (if ws[|ws| - 1] == w then 1 else 0)
  }

  /** The last min(WindowSize, |s|) words of `s`, in arrival order. */
  function Window(s: seq<string>): (r: seq<string>)
    ensures |r| == if |s| <= WindowSize then |s| else WindowSize
  {
    if |s| <= WindowSize then s else s[|s| - WindowSize..]
  }

  /** Appending a word to the window and dropping the oldest one when it
      overflows keeps the window equal to the last words seen. */
  lemma WindowSlide(s: seq<string>, w: string)
    ensures var t := Window(s) + [w];
            Window(s + [w]) == if |t| > WindowSize then t[1..] else t
  {
    var t := Window(s) + [w];
    if |s| >= WindowSize {
      assert t[1..] == (s + [w])[|s| + 1 - WindowSize..];
    }
  }

  /** `counts` after one more occurrence of each word of `ws`; a new word starts at 1. */
  function CountWords(counts: map<string, real>, ws: seq<string>): map<string, real>
  {
    if ws == [] then counts
    else
      var c := CountWords(counts, ws[..|ws| - 1]);
      var last := ws[|ws| - 1];
      c[last := WordCount(c, last) + 1.0]
  }

  /** Each word's count grows by exactly its number of occurrences in `ws`, and a
      word is counted afterwards exactly when it was before or occurs in `ws`. */
  lemma {:induction false} CountWordsAt(counts: map<string, real>, ws: seq<string>, w: string)
    ensures WordCount(CountWords(counts, ws), w) == WordCount(counts, w) + Frequency(ws, w) as real
    ensures w in CountWords(counts, ws) <==> w in counts || w in ws
    decreases |ws|
  {
    if ws != [] {
      var init := ws[..|ws| - 1];
      assert ws == init + [ws[|ws| - 1]];
      CountWordsAt(counts, init, w);
    }
  }

  /** Counting one more word. */
  lemma CountWordsSnoc(counts: map<string, real>, ws: seq<string>, w: string)
    ensures CountWords(counts, ws + [w]) == CountWords(counts, ws)[w := WordCount(CountWords(counts, ws), w) + 1.0]
  {
    assert (ws + [w])[..|ws|] == ws;
  }

  /** The count a decay pass leaves for a word: unchanged when learned, otherwise
      lowered by `rate` and floored at 0. */
  function DecayedCount(c: real, learned: bool, rate: real): real
  {
    if learned then c else if c - rate > 0.0 then c - rate else 0.0
  }

  /** The counts after one decay pass; a word whose new count is exactly 0 is dropped. */
  function Decayed(counts: map<string, real>, learned: set<string>, rate: real): (r: map<string, real>)
    ensures r.Keys <= counts.Keys
    ensures forall w | w in counts && w !in learned :: (w in r <==> counts[w] > rate)
    ensures forall w | w in r && w !in learned :: r[w] == counts[w] - rate
    ensures forall w | w in counts && w in learned && counts[w] != 0.0 :: w in r && r[w] == counts[w]
    ensures forall w | w in r && w !in learned :: r[w] > 0.0
    ensures (forall w | w in counts :: counts[w] > 0.0) ==> forall w | w in r :: r[w] > 0.0
    ensures counts == map[] ==> r == map[]
  {
    map w | w in counts && DecayedCount(counts[w], w in learned, rate) != 0.0
      :: DecayedCount(counts[w], w in learned, rate)
  }

  /** Two decay passes compound: decaying by `r1` then by a non-negative `r2` is
      decaying by `r1 + r2`. */
  lemma DecayCompounds(counts: map<string, real>, learned: set<string>, r1: real, r2: real)
    requires r2 >= 0.0
    ensures Decayed(Decayed(counts, learned, r1), learned, r2) == Decayed(counts, learned, r1 + r2)
  {
    var once := Decayed(counts, learned, r1);
    var twice := Decayed(once, learned, r2);
    var direct := Decayed(counts, learned, r1 + r2);
    forall w | w in counts
      ensures w in twice <==> w in direct
      ensures w in twice ==> twice[w] == direct[w]
    {
      if w !in learned && w in once {
        assert once[w] == counts[w] - r1;
      }
    }
    assert twice.Keys == direct.Keys;
  }

  /** The learned set after counting `ws` from `counts`: a word joins on the
      occurrence that brings its count to the threshold. */
  function LearnAll(learned: set<string>, counts: map<string, real>, ws: seq<string>): set<string>
  {
    if ws == [] then learned
    else
      var init := ws[..|ws| - 1];
      var last := ws[|ws| - 1];
      var l := LearnAll(learned, counts, init);
      if WordCount(CountWords(counts, init), last) + 1.0 >= LearnThreshold then l + {last} else l
  }

  /** Learning over one more word. */
  lemma LearnAllSnoc(learned: set<string>, counts: map<string, real>, ws: seq<string>, w: string)
    ensures LearnAll(learned, counts, ws + [w])
            == if WordCount(CountWords(counts, ws), w) + 1.0 >= LearnThreshold
               then LearnAll(learned, counts, ws) + {w}
               else LearnAll(learned, counts, ws)
  {
    assert (ws + [w])[..|ws|] == ws;
  }

  /** A word is learned after counting `ws` exactly when it was learned before, or
      it occurs in `ws` and its earlier count plus its occurrences reaches the
      threshold; in particular no learned word is ever dropped. */
  lemma {:induction false} LearnAllAt(learned: set<string>, counts: map<string, real>, ws: seq<string>, w: string)
    ensures w in LearnAll(learned, counts, ws)
            <==> w in learned || (w in ws && WordCount(counts, w) + Frequency(ws, w) as real >= LearnThreshold)
    decreases |ws|
  {
    if ws != [] {
      var init := ws[..|ws| - 1];
      var last := ws[|ws| - 1];
      assert ws == init + [last];
      assert w in ws <==> w in init || w == last;
      LearnAllAt(learned, counts, init, w);
      CountWordsAt(counts, init, last);
    }
  }

  /** Every word of `learned` has a count of at least the learning threshold. */
  predicate AllCounted(learned: set<string>, counts: map<string, real>)
  {
    forall w | w in learned :: w in counts && counts[w] >= LearnThreshold
  }

  /** Counting more words keeps every learned word counted, including the words
      learned on the way. */
  lemma {:induction false} LearningKeepsCounts(learned: set<string>, counts: map<string, real>, ws: seq<string>)
    requires AllCounted(learned, counts)
    ensures AllCounted(LearnAll(learned, counts, ws), CountWords(counts, ws))
  {
    forall w | w in LearnAll(learned, counts, ws)
      ensures w in CountWords(counts, ws) && CountWords(counts, ws)[w] >= LearnThreshold
    {
      LearnAllAt(learned, counts, ws, w);
      CountWordsAt(counts, ws, w);
    }
  }

  /** `order` lists each word of `s` exactly once. */
  predicate Enumerates(order: seq<string>, s: set<string>)
  {
    && (forall i | 0 <= i < |order| :: order[i] in s)
    && (forall w | w in s :: w in order)
    && (forall i, j | 0 <= i < j < |order| :: order[i] != order[j])
  }

  /** The words of `ws` separated by single spaces. */
  function JoinWords(ws: seq<string>): string
  {
    if |ws| == 0 then ""
    else if |ws| == 1 then ws[0]
    else ws[0] + " " + JoinWords(ws[1..])
  }

  /** Index of the first space of `s`, or |s| when there is none. */
  function SpaceIndex(s: string): (i: nat)
    ensures i <= |s|
    ensures forall j | 0 <= j < i :: s[j] != ' '
    ensures i < |s| ==> s[i] == ' '
  {
    if s == [] then 0
    else if s[0] == ' ' then 0
    else 1 + SpaceIndex(s[1..])
  }

  /** `s` cut at every space. */
  function SplitAtSpaces(s: string): seq<string>
    decreases |s|
  {
    var i := SpaceIndex(s);
    if i == |s| then [s] else [s[..i]] + SplitAtSpaces(s[i + 1..])
  }

  /** Joining words that hold no space can be undone by cutting at the spaces. */
  lemma {:induction false} SplitJoin(ws: seq<string>)
    requires |ws| > 0
    requires forall k | 0 <= k < |ws| :: ' ' !in ws[k]
    ensures SplitAtSpaces(JoinWords(ws)) == ws
    decreases |ws|
  {
    var w := ws[0];
    if |ws| == 1 {
      assert SpaceIndex(w) == |w|;
    } else {
      var rest := JoinWords(ws[1..]);
      var s := w + " " + rest;
      assert s[|w|] == ' ';
      assert forall j | 0 <= j < |w| :: s[j] == w[j];
      assert SpaceIndex(s) == |w|;
      assert s[..|w|] == w;
      assert s[|w| + 1..] == rest;
      SplitJoin(ws[1..]);
      assert [w] + ws[1..] == ws;
    }
  }

  /** What a memory-state query hands back: the window, the counts and the
      learned words, as values. */
  datatype MemoryState = MemoryState(window: seq<string>, counts: map<string, real>, learned: set<string>)

  class SymbolicBrain {
    /** The most recent words, oldest first. */
    var stm: seq<string>
    /** Occurrence count per word. */
    var ltm: map<string, real>
    /** Words that reached the learning threshold. */
    var learnedWords: set<string>

    /** The invariant every operation keeps. */
    ghost predicate Valid()
      reads this
    {
      && |stm| <= WindowSize
      && (forall w | w in ltm :: ltm[w] > 0.0)
    }

    /** Every learned word still has a count of at least the threshold. Kept by
        every operation except learning with a threshold below the default. */
    ghost predicate LearnedRetained()
      reads this
    {
      AllCounted(learnedWords, ltm)
    }

    constructor ()
      ensures Valid() && LearnedRetained()
      ensures stm == [] && ltm == map[] && learnedWords == {}
    {
      stm := [];
      ltm := map[];
      learnedWords := {};
    }

    /** Feeds `words` one at a time through the window, the counts and learning. */
    method ProcessInput(words: seq<string>)
      requires Valid()
      modifies this
      ensures Valid()
      ensures stm == Window(old(stm) + words)
      ensures ltm == CountWords(old(ltm), words)
      ensures learnedWords == LearnAll(old(learnedWords), old(ltm), words)
      ensures old(LearnedRetained()) ==> LearnedRetained()
    {
      ghost var stm0, ltm0, learned0 := stm, ltm, learnedWords;
      ghost var seen: seq<string> := [];
      var i := 0;
      while i < |words|
        invariant 0 <= i <= |words| && seen == words[..i]
        invariant Valid()
        invariant stm == Window(stm0 + seen)
        invariant ltm == CountWords(ltm0, seen)
        invariant learnedWords == LearnAll(learned0, ltm0, seen)
      {
        var word := words[i];
        WindowSlide(stm0 + seen, word);
        assert stm0 + (seen + [word]) == stm0 + seen + [word];
        CountWordsSnoc(ltm0, seen, word);
        LearnAllSnoc(learned0, ltm0, seen, word);
        stm := stm + [word];
        if |stm| > WindowSize {
          stm := stm[1..];
        }
        UpdateMemory(word);
        seen := seen + [word];
        i := i + 1;
      }
      assert seen == words;
      if AllCounted(learned0, ltm0) {
        LearningKeepsCounts(learned0, ltm0, words);
      }
    }

    /** Counts one occurrence of `word` and learns it once its count reaches the
        threshold. */
    method UpdateMemory(word: string)
      requires Valid()
      modifies this
      ensures Valid()
      ensures stm == old(stm)
      ensures ltm == old(ltm)[word := WordCount(old(ltm), word) + 1.0]
      ensures learnedWords == if ltm[word] >= LearnThreshold then old(learnedWords) + {word} else old(learnedWords)
      ensures old(LearnedRetained()) ==> LearnedRetained()
    {
      if word in ltm {
        ltm := ltm[word := ltm[word] + 1.0];
      } else {
        ltm := ltm[word := 1.0];
      }
      if ltm[word] >= LearnThreshold {
        CheckLearnedWords(word, LearnThreshold);
      }
    }

    /** Learns `word` when it is not yet learned and its count reaches `threshold`. */
    method CheckLearnedWords(word: string, threshold: real := LearnThreshold)
      modifies this
      ensures stm == old(stm) && ltm == old(ltm)
      ensures learnedWords ==
        if word !in old(learnedWords) && WordCount(ltm, word) >= threshold
        then old(learnedWords) + {word}
        else old(learnedWords)
      ensures threshold >= LearnThreshold && old(LearnedRetained()) ==> LearnedRetained()
    {
      if word !in learnedWords && WordCount(ltm, word) >= threshold {
        learnedWords := learnedWords + {word};
      }
    }

    /** One decay pass over every counted word: a word not learned loses `rate`,
        floored at 0, and any word whose count is then 0 is forgotten. */
    method DecayMemory(rate: real := DefaultDecayRate)
      requires Valid()
      modifies this
      ensures Valid()
      ensures stm == old(stm) && learnedWords == old(learnedWords)
      ensures ltm == Decayed(old(ltm), learnedWords, rate)
      ensures old(LearnedRetained()) ==> LearnedRetained()
    {
      ghost var counts0 := ltm;
      var decayed := Decayed(counts0, learnedWords, rate);
      var pending := ltm.Keys;
      while pending != {}
        invariant pending <= counts0.Keys
        invariant ltm.Keys <= counts0.Keys
        invariant forall w | w in pending :: w in ltm && ltm[w] == counts0[w]
        invariant forall w | w in counts0 && w !in pending :: (w in ltm <==> w in decayed)
        invariant forall w | w in counts0 && w !in pending && w in ltm :: ltm[w] == decayed[w]
        modifies this`ltm
        decreases pending
      {
        var word :| word in pending;
        if word !in learnedWords {
          ltm := ltm[word := if ltm[word] - rate > 0.0 then ltm[word] - rate else 0.0];
        }
        if ltm[word] == 0.0 {
          ltm := ltm - {word};
        }
        pending := pending - {word};
      }
      assert ltm.Keys == decayed.Keys;
    }

    /** The learned words joined by spaces, listed in `order` (the set's iteration
        order), or the fixed message when nothing is learned. */
    function RecallWords(order: seq<string>): (r: string)
      reads this
      requires Enumerates(order, learnedWords)
      ensures learnedWords == {} ==> r == NothingRecalled
      ensures learnedWords != {} && (forall w | w in learnedWords :: ' ' !in w) ==> SplitAtSpaces(r) == order
    {
      if learnedWords == {} then NothingRecalled
      else
        assert (forall w | w in learnedWords :: ' ' !in w) ==> SplitAtSpaces(JoinWords(order)) == order by {
          if forall w | w in learnedWords :: ' ' !in w {
            assert |order| > 0 by {
              var w :| w in learnedWords;
              assert w in order;
            }
            SplitJoin(order);
          }
        }
        JoinWords(order)
    }

    /** The window, the counts and the learned words at the time of the call. */
    function GetMemoryState(): (s: MemoryState)
      reads this
      requires Valid()
      ensures |s.window| <= WindowSize
      ensures forall w | w in s.counts :: s.counts[w] > 0.0
      ensures s.window == stm && s.counts == ltm && s.learned == learnedWords
    {
      MemoryState(stm, ltm, learnedWords)
    }
  }

  /** Recall cannot tell "nothing learned" from having learned the four words of
      the message itself, listed in that order. */
  lemma RecallMatchesMessage(brain: SymbolicBrain)
    requires brain.learnedWords == {"No", "full", "words", "recalled."}
    ensures brain.RecallWords(["No", "full", "words", "recalled."]) == NothingRecalled
  {
    var order := ["No", "full", "words", "recalled."];
    assert "No" in order && "full" in order && "words" in order && "recalled." in order;
    assert Enumerates(order, brain.learnedWords);
    assert order[1..][1..] == order[2..] && order[2..][1..] == order[3..];
    assert JoinWords(order[2..]) == "words" + " " + "recalled.";
    assert JoinWords(order[1..]) == "full" + " " + ("words" + " " + "recalled.");
  }

  /** Three occurrences of a word learn it on the third and not before; one
      occurrence followed by a decay of 1 forgets it. */
  method LearningScenario()
  {
    var b := new SymbolicBrain();
    b.ProcessInput(["x"]);
    b.ProcessInput(["x"]);
    assert "x" !in b.learnedWords;
    b.ProcessInput(["x"]);
    assert "x" in b.learnedWords;
    b.ProcessInput(["y"]);
    assert b.ltm["y"] == 1.0;
    b.DecayMemory(1.0);
    assert "y" !in b.ltm;
    assert "x" in b.ltm && b.ltm["x"] == 3.0;
  }
}
