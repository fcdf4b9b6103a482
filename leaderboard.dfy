/**
 * The leaderboard: the entries of finished games, best score first, at
 * most ten of them.  A new entry is appended, the list is sorted by score,
 * highest first, keeping the order of equal scores (Python's `sort` is
 * stable, also with `reverse=True`), and cut to ten.
 */
module Ranking {
  /** The most entries the board keeps. */
  const Capacity := 10

  /**
   * One entry.  The date stamp is not part of this model; the efficiency
   * is the score over the shots fired, at least one.
   */
  datatype Entry = Entry(name: string, score: int, time: int, shots: int, efficiency: real)

  function Efficiency(score: int, shots: int): (e: real)
    ensures shots >= 1 ==> e * shots as real == score as real
    ensures shots < 1 ==> e == score as real
  {
    score as real / (if shots < 1 then 1 else shots) as real
  }

  /** Scores never rise along the list. */
  predicate Sorted(xs: seq<Entry>) {
    forall i, j :: 0 <= i < j < |xs| ==> xs[i].score >= xs[j].score
  }

  /** The entries of score v, in list order. */
  function WithScore(xs: seq<Entry>, v: int): seq<Entry> {
    if xs == [] then []
    else (if xs[0].score == v then [xs[0]] else []) + WithScore(xs[1..], v)
  }

  /** e placed after every leading entry that scores at least as much. */
  function Insert(e: Entry, xs: seq<Entry>): seq<Entry> {
    if xs == [] then [e]
    else if xs[0].score >= e.score then [xs[0]] + Insert(e, xs[1..])
    else [e] + xs
  }

  /** The stable sort by descending score: each entry in turn is inserted after the earlier ones it does not beat. */
  function SortDesc(xs: seq<Entry>): seq<Entry> {
    if xs == [] then [] else Insert(xs[|xs| - 1], SortDesc(xs[..|xs| - 1]))
  }

  /** `add_score` on the list xs. */
  function Ranked(xs: seq<Entry>, e: Entry): seq<Entry> {
    var s := SortDesc(xs + [e]);
    if |s| > Capacity then s[..Capacity] else s
  }

  /** Insertion into a sorted list keeps it sorted, adds e to its entries and adds e at the end of the entries of its score. */
  lemma InsertLaw(e: Entry, xs: seq<Entry>)
    requires Sorted(xs)
    ensures Sorted(Insert(e, xs))
    ensures multiset(Insert(e, xs)) == multiset(xs) + multiset{e}
    ensures forall v :: WithScore(Insert(e, xs), v) == WithScore(xs, v) + WithScore([e], v)
  {
    InsertPerm(e, xs);
    InsertSorted(e, xs);
    forall v
      ensures WithScore(Insert(e, xs), v) == WithScore(xs, v) + WithScore([e], v)
    {
      InsertStable(e, xs, v);
    }
  }

  lemma {:induction false} InsertPerm(e: Entry, xs: seq<Entry>)
    ensures multiset(Insert(e, xs)) == multiset(xs) + multiset{e}
    decreases |xs|
  {
    if xs != [] && xs[0].score >= e.score {
      InsertPerm(e, xs[1..]);
      assert xs == [xs[0]] + xs[1..];
    }
  }

  lemma {:induction false} InsertSorted(e: Entry, xs: seq<Entry>)
    requires Sorted(xs)
    ensures Sorted(Insert(e, xs))
    decreases |xs|
  {
    if xs != [] && xs[0].score >= e.score {
      InsertSorted(e, xs[1..]);
      InsertPerm(e, xs[1..]);
      HeadBound(e, xs);
    }
  }

  lemma {:induction false} InsertStable(e: Entry, xs: seq<Entry>, v: int)
    requires Sorted(xs)
    ensures WithScore(Insert(e, xs), v) == WithScore(xs, v) + WithScore([e], v)
    decreases |xs|
  {
    if xs == [] {
      assert WithScore([], v) == [];
    } else if xs[0].score >= e.score {
      InsertStable(e, xs[1..], v);
      WithScoreHead(xs[0], Insert(e, xs[1..]), v);
      WithScoreHead(xs[0], xs[1..], v);
      assert [xs[0]] + xs[1..] == xs;
    } else {
      WithScoreHead(e, xs, v);
      ScoreAbsent(xs, v, e.score);
    }
  }

  /** When the head of a sorted list scores at least e, so does every entry of e's insertion into the rest. */
  lemma HeadBound(e: Entry, xs: seq<Entry>)
    requires Sorted(xs) && |xs| > 0 && xs[0].score >= e.score
    requires Sorted(Insert(e, xs[1..])) && multiset(Insert(e, xs[1..])) == multiset(xs[1..]) + multiset{e}
    ensures Sorted(Insert(e, xs))
  {
    var r := Insert(e, xs[1..]);
    forall j | 0 <= j < |r|
      ensures xs[0].score >= r[j].score
    {
      assert r[j] in multiset(r);
      if r[j] != e {
        assert r[j] in multiset(xs[1..]);
        var k :| 0 <= k < |xs[1..]| && xs[1..][k] == r[j];
        assert xs[k + 1] == r[j];
      }
    }
  }

  lemma WithScoreHead(x: Entry, xs: seq<Entry>, v: int)
    ensures WithScore([x] + xs, v) == WithScore([x], v) + WithScore(xs, v)
  {
    assert ([x] + xs)[1..] == xs;
  }

  /** A sorted list whose head scores less than w has no entry of score w. */
  lemma {:induction false} ScoreAbsent(xs: seq<Entry>, v: int, w: int)
    requires Sorted(xs) && (xs == [] || xs[0].score < w)
    ensures v == w ==> WithScore(xs, v) == []
    decreases |xs|
  {
    if xs != [] && v == w {
      ScoreAbsent(xs[1..], v, w);
    }
  }

  /**
   * The sort returns its input in descending order of score, as a
   * permutation, and keeps the order of the entries of each score.
   */
  lemma {:induction false} SortLaw(xs: seq<Entry>)
    ensures Sorted(SortDesc(xs))
    ensures multiset(SortDesc(xs)) == multiset(xs)
    ensures forall v :: WithScore(SortDesc(xs), v) == WithScore(xs, v)
    decreases |xs|
  {
    if xs != [] {
      var init, e := xs[..|xs| - 1], xs[|xs| - 1];
      SortLaw(init);
      InsertLaw(e, SortDesc(init));
      assert xs == init + [e];
      forall v
        ensures WithScore(xs, v) == WithScore(init, v) + WithScore([e], v)
      {
        WithScoreAppend(init, [e], v);
      }
    }
  }

  lemma {:induction false} WithScoreAppend(xs: seq<Entry>, ys: seq<Entry>, v: int)
    ensures WithScore(xs + ys, v) == WithScore(xs, v) + WithScore(ys, v)
    decreases |xs|
  {
    if xs == [] {
      assert xs + ys == ys;
    } else {
      var x, t := xs[0], xs[1..];
      WithScoreAppend(t, ys, v);
      WithScoreHead(x, t + ys, v);
      WithScoreHead(x, t, v);
      assert [x] + (t + ys) == xs + ys;
      assert [x] + t == xs;
    }
  }

  /** A sorted list is left as it is by the sort. */
  lemma {:induction false} SortedFixed(xs: seq<Entry>)
    requires Sorted(xs)
    ensures SortDesc(xs) == xs
    decreases |xs|
  {
    if xs != [] {
      var init, e := xs[..|xs| - 1], xs[|xs| - 1];
      SortedFixed(init);
      InsertLast(e, init);
      assert init + [e] == xs;
    }
  }

  /** An entry that scores no more than any entry of a sorted list goes to its end. */
  lemma {:induction false} InsertLast(e: Entry, xs: seq<Entry>)
    requires forall i :: 0 <= i < |xs| ==> xs[i].score >= e.score
    ensures Insert(e, xs) == xs + [e]
    decreases |xs|
  {
    if xs != [] {
      InsertLast(e, xs[1..]);
      assert xs == [xs[0]] + xs[1..];
    }
  }

  /**
   * After `add_score` the board is sorted, holds at most ten entries, and
   * they are the first ten of the stable sort of the old entries and the
   * new one: no dropped entry beats a kept one.  On a sorted board the new
   * entry is simply inserted after those it does not beat.
   */
  lemma AddScoreLaw(xs: seq<Entry>, e: Entry)
    ensures var r, s := Ranked(xs, e), SortDesc(xs + [e]);
      Sorted(r) && |r| == (if |xs| + 1 > Capacity then Capacity else |xs| + 1) &&
      multiset(s) == multiset(xs) + multiset{e} &&
      (forall i, j :: 0 <= i < |r| <= j < |s| ==> r[i].score >= s[j].score)
    ensures Sorted(xs) ==> SortDesc(xs + [e]) == Insert(e, xs)
  {
    var s := SortDesc(xs + [e]);
    SortLaw(xs + [e]);
    assert |s| == |xs| + 1 by {
      assert |multiset(s)| == |multiset(xs + [e])|;
    }
    if Sorted(xs) {
      assert (xs + [e])[..|xs|] == xs;
      SortedFixed(xs);
    }
  }

  /** The leaderboard; `load` and `save` are not part of this model, so a new board starts empty. */
  class Leaderboard {
    var scores: seq<Entry>

    constructor ()
      ensures scores == []
    {
      scores := [];
    }

    /**
     * `add_score`: the entry of a finished game joins the board, which is
     * sorted by score, highest first, and cut to ten entries.
     */
    method AddScore(name: string, score: int, time: int, shots: int)
      modifies this
      ensures scores == Ranked(old(scores), Entry(name, score, time, shots, Efficiency(score, shots)))
      ensures Sorted(scores) && |scores| <= Capacity
    {
      var entry := Entry(name, score, time, shots, Efficiency(score, shots));
      AddScoreLaw(scores, entry);
      scores := scores + [entry];
      scores := SortDesc(scores);
      if |scores| > Capacity {
        scores := scores[..Capacity];
      }
    }
  }
}
