/** Two-tier memory store: a bounded short-term memory (STM) whose contents are
    promoted into an append-only long-term memory (LTM) when the STM overflows,
    and a table of promotion counts ("adaptive weights"). */
module MemoryTiers {

  /** One memory: its content and its importance score (a MemoryNode without its link). */
  datatype Entry = Entry(data: string, weight: int)

  /** Default STM capacity of a new manager. */
  const DefaultCapacity: int := 5

  /** Default weight threshold of a promotion pass; the one the insert path uses. */
  const DefaultWeightThreshold: int := 5

  /** Number of entries of `s` whose data is `d`. */
  function Occurrences(s: seq<Entry>, d: string): nat
  {
    if s == [] then 0
    else Occurrences(s[..|s| - 1], d) + (if s[|s| - 1].data == d then 1 else 0)
  }

  /** Counting distributes over concatenation. */
  lemma {:induction false} OccurrencesAppend(a: seq<Entry>, b: seq<Entry>, d: string)
    ensures Occurrences(a + b, d) == Occurrences(a, d) + Occurrences(b, d)
    decreases |b|
  {
    if b == [] {
      assert a + b == a;
    } else {
      var b' := b[..|b| - 1];
      assert (a + b)[..|a + b| - 1] == a + b';
      assert (a + b)[|a + b| - 1] == b[|b| - 1];
      OccurrencesAppend(a, b', d);
    }
  }

  /** A data value occurs in `s` exactly when `s` holds an entry with that data. */
  lemma {:induction false} OccurrencesPositive(s: seq<Entry>, d: string)
    ensures Occurrences(s, d) > 0 <==> exists i :: 0 <= i < |s| && s[i].data == d
    decreases |s|
  {
    if s != [] {
      var s' := s[..|s| - 1];
      OccurrencesPositive(s', d);
      if exists i :: 0 <= i < |s'| && s'[i].data == d {
        var i :| 0 <= i < |s'| && s'[i].data == d;
        assert s[i].data == d;
      }
      if exists i :: 0 <= i < |s| && s[i].data == d {
        var i :| 0 <= i < |s| && s[i].data == d;
        if i < |s'| {
          assert s'[i].data == d;
        }
      }
    }
  }

  /** Bonus lookup with a default of 0 for an unknown identity. */
  function BonusOf(table: map<string, int>, d: string): int
  {
    if d in table then table[d] else 0
  }

  /** The entries of `stm` that a promotion pass with `threshold` copies into the LTM,
      in head-to-tail order. */
  function Promoted(stm: seq<Entry>, threshold: int): (r: seq<Entry>)
    ensures |r| <= |stm|
    ensures forall i :: 0 <= i < |r| ==> r[i].weight >= threshold
  {
    if stm == [] then []
    else
      var last := stm[|stm| - 1];
      Promoted(stm[..|stm| - 1], threshold) + (if last.weight >= threshold then [last] else [])
  }

  /** A promotion pass keeps every copy of each entry that reaches the threshold
      and no copy of any other entry. */
  lemma {:induction false} PromotedContents(stm: seq<Entry>, threshold: int, e: Entry)
    ensures multiset(Promoted(stm, threshold))[e] == if e.weight >= threshold then multiset(stm)[e] else 0
    decreases |stm|
  {
    if stm != [] {
      var last := stm[|stm| - 1];
      assert stm == stm[..|stm| - 1] + [last];
      PromotedContents(stm[..|stm| - 1], threshold, e);
    }
  }

  /** A promotion pass over one more entry promotes that entry last, if at all. */
  lemma PromotedSnoc(stm: seq<Entry>, e: Entry, threshold: int)
    ensures e.weight >= threshold ==> Promoted(stm + [e], threshold) == Promoted(stm, threshold) + [e]
    ensures e.weight < threshold ==> Promoted(stm + [e], threshold) == Promoted(stm, threshold)
  {
    assert (stm + [e])[..|stm|] == stm;
    assert Promoted(stm, threshold) + [] == Promoted(stm, threshold);
  }

  /** Order is kept: promoting `a` then `b` is promoting `a + b`. */
  lemma {:induction false} PromotedAppend(a: seq<Entry>, b: seq<Entry>, threshold: int)
    ensures Promoted(a + b, threshold) == Promoted(a, threshold) + Promoted(b, threshold)
    decreases |b|
  {
    if b == [] {
      assert a + b == a;
    } else {
      var b' := b[..|b| - 1];
      assert (a + b)[..|a + b| - 1] == a + b';
      assert (a + b)[|a + b| - 1] == b[|b| - 1];
      PromotedAppend(a, b', threshold);
    }
  }

  /** `table` with one added for the data of each entry of `entries`; a key absent
      from `table` starts at 0. */
  function Tally(table: map<string, int>, entries: seq<Entry>): map<string, int>
  {
    if entries == [] then table
    else
      var last := entries[|entries| - 1];
      var t := Tally(table, entries[..|entries| - 1]);
      t[last.data := BonusOf(t, last.data) + 1]
  }

  /** Each identity's count grows by exactly its number of tallied entries, and a
      key is present afterwards exactly when it was before or was tallied. */
  lemma {:induction false} TallyCounts(table: map<string, int>, entries: seq<Entry>, d: string)
    ensures BonusOf(Tally(table, entries), d) == BonusOf(table, d) + Occurrences(entries, d)
    ensures d in Tally(table, entries) <==> d in table || Occurrences(entries, d) > 0
    decreases |entries|
  {
    if entries != [] {
      TallyCounts(table, entries[..|entries| - 1], d);
    }
  }

  /** Tallying never lowers a count and never drops a key. */
  lemma {:induction false} TallyNeverLowers(table: map<string, int>, entries: seq<Entry>, d: string)
    ensures BonusOf(Tally(table, entries), d) >= BonusOf(table, d)
    ensures d in table ==> d in Tally(table, entries)
    ensures Occurrences(entries, d) == 0 ==> BonusOf(Tally(table, entries), d) == BonusOf(table, d)
  {
    TallyCounts(table, entries, d);
  }

  /** Tallying one more entry adds one to that entry's data. */
  lemma TallySnoc(table: map<string, int>, entries: seq<Entry>, e: Entry)
    ensures Tally(table, entries + [e]) == Tally(table, entries)[e.data := BonusOf(Tally(table, entries), e.data) + 1]
  {
    assert (entries + [e])[..|entries|] == entries;
  }

  /** Promoting one more entry that reaches the threshold counts one more promotion
      of its data. */
  lemma TallyPromotedSnoc(table: map<string, int>, stm: seq<Entry>, e: Entry, threshold: int)
    requires e.weight >= threshold
    ensures Tally(table, Promoted(stm + [e], threshold))
            == Tally(table, Promoted(stm, threshold))[e.data := BonusOf(Tally(table, Promoted(stm, threshold)), e.data) + 1]
  {
    PromotedSnoc(stm, e, threshold);
    assert Promoted(stm + [e], threshold) == Promoted(stm, threshold) + [e];
    TallySnoc(table, Promoted(stm, threshold), e);
  }

  /** Tallying `a` and then `b` is tallying `a + b`. */
  lemma {:induction false} TallyAppend(table: map<string, int>, a: seq<Entry>, b: seq<Entry>)
    ensures Tally(Tally(table, a), b) == Tally(table, a + b)
    decreases |b|
  {
    if b == [] {
      assert a + b == a;
    } else {
      var b' := b[..|b| - 1];
      var e := b[|b| - 1];
      assert b == b' + [e];
      assert a + b == (a + b') + [e];
      calc {
        Tally(Tally(table, a), b);
        { TallySnoc(Tally(table, a), b', e); }
        Tally(Tally(table, a), b')[e.data := BonusOf(Tally(Tally(table, a), b'), e.data) + 1];
        { TallyAppend(table, a, b'); }
        Tally(table, a + b')[e.data := BonusOf(Tally(table, a + b'), e.data) + 1];
        { TallySnoc(table, a + b', e); }
        Tally(table, a + b);
      }
    }
  }

  /** The pattern report: each data value that occurs more than once in `ltm`,
      with its number of occurrences. */
  function PatternCounts(ltm: seq<Entry>): (r: map<string, nat>)
    ensures forall d :: d in r <==> Occurrences(ltm, d) > 1
    ensures forall d | d in r :: r[d] == Occurrences(ltm, d)
  {
    var counter := Tally(map[], ltm);
    assert forall d :: BonusOf(counter, d) == Occurrences(ltm, d) by {
      forall d ensures BonusOf(counter, d) == Occurrences(ltm, d) {
        TallyCounts(map[], ltm, d);
      }
    }
    map d | d in counter && counter[d] > 1 :: counter[d]
  }

  /** The loop of a promotion pass: walks `nodes` head to tail, appending each
      entry that reaches `threshold` to `ltm` and counting it in `weights`. */
  method PromotionPass(nodes: seq<Entry>, ltm: seq<Entry>, weights: map<string, int>, threshold: int)
    returns (ltm': seq<Entry>, weights': map<string, int>)
    ensures ltm' == ltm + Promoted(nodes, threshold)
    ensures weights' == Tally(weights, Promoted(nodes, threshold))
  {
    ltm', weights' := ltm, weights;
    ghost var walked: seq<Entry> := [];
    var i := 0;
    while i < |nodes|
      invariant 0 <= i <= |nodes| && walked == nodes[..i]
      invariant ltm' == ltm + Promoted(walked, threshold)
      invariant weights' == Tally(weights, Promoted(walked, threshold))
    {
      var current := nodes[i];
      PromotedSnoc(walked, current, threshold);
      if current.weight >= threshold {
        TallyPromotedSnoc(weights, walked, current, threshold);
        ltm' := ltm' + [current];
        weights' := weights'[current.data := BonusOf(weights', current.data) + 1];
      }
      walked := walked + [current];
      i := i + 1;
    }
    assert walked == nodes;
  }

  class MemoryManager {
    /** Limit on the STM counter. */
    var stmCapacity: int
    /** The STM list, head (most recent) first. */
    var stm: seq<Entry>
    /** The STM counter; it lags the list by one after an overflow. */
    var stmSize: nat
    /** The LTM, in promotion order. */
    var ltm: seq<Entry>
    /** Promotion count per identity. */
    var adaptiveWeights: map<string, int>

    /** The invariant every completed operation keeps. */
    ghost predicate Valid()
      reads this
    {
      && (|stm| == stmSize || |stm| == stmSize + 1)
      && stmSize <= (if stmCapacity < 0 then 0 else stmCapacity)
      && adaptiveWeights == Tally(map[], ltm)
    }

    constructor (capacity: int := DefaultCapacity)
      ensures Valid()
      ensures stmCapacity == capacity && stm == [] && stmSize == 0
      ensures ltm == [] && adaptiveWeights == map[]
    {
      stmCapacity := capacity;
      stm := [];
      stmSize := 0;
      ltm := [];
      adaptiveWeights := map[];
    }

    /** Inserts a memory: at the head while the counter is below capacity,
        otherwise after a promotion pass that empties the STM. The looked-up bonus
        never reaches the stored entry, and the counter is not raised on overflow. */
    method AddToMemory(data: string, weight: int := 1)
      requires Valid()
      modifies this
      ensures Valid()
      ensures stmCapacity == old(stmCapacity)
      ensures old(stmSize) < stmCapacity ==>
        && stm == [Entry(data, weight)] + old(stm)
        && stmSize == old(stmSize) + 1
        && ltm == old(ltm)
        && adaptiveWeights == old(adaptiveWeights)
      ensures old(stmSize) >= stmCapacity ==>
        && stm == [Entry(data, weight)]
        && stmSize == 0
        && ltm == old(ltm) + Promoted(old(stm), DefaultWeightThreshold)
        && adaptiveWeights == Tally(old(adaptiveWeights), Promoted(old(stm), DefaultWeightThreshold))
    {
      var newNode := Entry(data, weight);
      var adjusted := weight;
      if data in adaptiveWeights {
        // Raises only this local; newNode keeps the caller's weight.
        adjusted := adjusted + adaptiveWeights[data];
      }
      if stmSize < stmCapacity {
        stm := [newNode] + stm;
        stmSize := stmSize + 1;
      } else {
        ReinforceMemory(DefaultWeightThreshold);
        stm := [newNode];
      }
    }

    /** Walks the STM head to tail, copies every entry whose weight is at least
        `weightThreshold` into the LTM and counts its promotion, then clears the STM. */
    method ReinforceMemory(weightThreshold: int := DefaultWeightThreshold)
      requires Valid()
      modifies this
      ensures Valid()
      ensures stmCapacity == old(stmCapacity)
      ensures stm == [] && stmSize == 0
      ensures ltm == old(ltm) + Promoted(old(stm), weightThreshold)
      ensures adaptiveWeights == Tally(old(adaptiveWeights), Promoted(old(stm), weightThreshold))
      ensures old(stm) == [] ==> ltm == old(ltm) && adaptiveWeights == old(adaptiveWeights)
    {
      var promoted, weights := PromotionPass(stm, ltm, adaptiveWeights, weightThreshold);
      TallyAppend(map[], ltm, Promoted(stm, weightThreshold));
      ltm, adaptiveWeights := promoted, weights;
      stm := [];
      stmSize := 0;
    }

    /** The pattern report over the current LTM. Under the invariant it is the
        part of the bonus table whose counts exceed one. */
    method AnalyzePatterns() returns (report: map<string, nat>)
      requires Valid()
      ensures forall d :: d in report <==> Occurrences(ltm, d) > 1
      ensures forall d | d in report :: report[d] == Occurrences(ltm, d)
      ensures forall d :: d in report <==> BonusOf(adaptiveWeights, d) > 1
      ensures forall d | d in report :: report[d] == BonusOf(adaptiveWeights, d)
    {
      report := PatternCounts(ltm);
      forall d
        ensures BonusOf(adaptiveWeights, d) == Occurrences(ltm, d)
      {
        TallyCounts(map[], ltm, d);
      }
    }
  }

  /** Capacity 2, threshold 5: two inserts fill the STM, the third promotes the
      heavy entry, drops the light one and becomes the sole STM entry. */
  method PromotionScenario()
  {
    var m := new MemoryManager(2);
    m.AddToMemory("A", 5);
    m.AddToMemory("B", 1);
    ghost var full := m.stm;
    assert full == [Entry("B", 1), Entry("A", 5)] && m.stmSize == 2;
    m.AddToMemory("C", 1);
    assert Promoted(full, DefaultWeightThreshold) == [Entry("A", 5)] by {
      assert full[..1] == [Entry("B", 1)];
      assert full[..1][..0] == [];
    }
    assert m.ltm == [Entry("A", 5)] && m.stm == [Entry("C", 1)] && m.stmSize == 0;
    assert BonusOf(m.adaptiveWeights, "A") == 1 by {
      TallyCounts(map[], [], "A");
      TallySnoc(map[], [], Entry("A", 5));
    }
  }
}
